// Hybrid search (rag/store.py): two rankings of chunks fused by reciprocal rank,
// over the documents named and ready.

module RagSearch {
  import opened Text
  import opened RagStore

  type Ranking = seq<nat>

  // ----- the documents searched -----

  predicate Searchable(t: Tables, id: Id) {
    && id in t.docs && t.docs[id].status == Ready
    && t.docs[id].hash.Some? && t.docs[id].hash.value != ""
  }

  // A ready document that points at this content.
  predicate Holds(t: Tables, id: Id, h: Hash) {
    id in t.docs && t.docs[id] == Doc(Some(h), Ready)
  }

  // A content several found documents hold is reported as the first of them.
  predicate ReportedAs(t: Tables, found: seq<Id>, h: Hash, id: Id) {
    exists n :: 0 <= n < |found| && found[n] == id && Holds(t, id, h) && forall m | 0 <= m < n :: !Holds(t, found[m], h)
  }

  ghost predicate MapsContents(t: Tables, found: seq<Id>, byHash: map<Hash, Id>) {
    && (forall h | h in byHash :: h != "" && ReportedAs(t, found, h, byHash[h]))
    && (forall m, h | 0 <= m < |found| && h != "" && Holds(t, found[m], h) :: h in byHash)
  }

  // The content of each ready document, and which document it is reported as.
  method HashToDoc(t: Tables, found: seq<Id>) returns (byHash: map<Hash, Id>)
    ensures MapsContents(t, found, byHash)
  {
    byHash := map[];
    for n := 0 to |found|
      invariant MapsContents(t, found[..n], byHash)
    {
      var id := found[n];
      ghost var before := byHash;
      if Searchable(t, id) {
        var h := t.docs[id].hash.value;
        if h !in byHash {
          byHash := byHash[h := id];
        }
      }
      MapsNext(t, found, n, before, byHash);
    }
    assert found[..|found|] == found;
  }

  lemma MapsNext(t: Tables, found: seq<Id>, n: nat, before: map<Hash, Id>, after: map<Hash, Id>)
    requires n < |found| && MapsContents(t, found[..n], before)
    requires after == if Searchable(t, found[n]) && t.docs[found[n]].hash.value !in before
                      then before[t.docs[found[n]].hash.value := found[n]] else before
    ensures MapsContents(t, found[..n + 1], after)
  {
    var now := found[..n + 1];
    forall h | h in after ensures h != "" && ReportedAs(t, now, h, after[h]) {
      if h in before {
        var i :| 0 <= i < n && found[..n][i] == before[h] && Holds(t, before[h], h)
                 && forall m | 0 <= m < i :: !Holds(t, found[..n][m], h);
        assert now[i] == before[h] && forall m | 0 <= m < i :: now[m] == found[..n][m];
      } else {
        assert now[n] == found[n] && Holds(t, found[n], h);
        assert forall m | 0 <= m < n :: now[m] == found[..n][m];
      }
    }
    forall m, h | 0 <= m < |now| && h != "" && Holds(t, now[m], h) ensures h in after {
      if m < n {
        assert found[..n][m] == now[m];
      }
    }
  }

  // ----- fusion -----

  function Weight(rrfK: nat, rank: nat): real {
    1.0 / (rrfK + rank + 1) as real
  }

  function Contribution(ranking: Ranking, c: nat, rrfK: nat): real {
    if ranking == [] then 0.0
    else
      var n := |ranking| - 1;
      Contribution(ranking[..n], c, rrfK) + if ranking[n] == c then Weight(rrfK, n) else 0.0
  }

  function Score(rankings: seq<Ranking>, c: nat, rrfK: nat): real {
    if rankings == [] then 0.0
    else
      var n := |rankings| - 1;
      Score(rankings[..n], c, rrfK) + Contribution(rankings[n], c, rrfK)
  }

  predicate Named(rankings: seq<Ranking>, c: nat) {
    exists i | 0 <= i < |rankings| :: c in rankings[i]
  }

  // The fused scores, and the chunks in the order they were first named.
  method FuseOne(fused0: map<nat, real>, order0: seq<nat>, ranking: Ranking, rrfK: nat)
    returns (fused: map<nat, real>, order: seq<nat>)
    requires Distinct(order0) && forall c :: c in order0 <==> c in fused0
    ensures Distinct(order) && forall c :: c in order <==> c in fused
    ensures forall c :: c in fused <==> c in fused0 || c in ranking
    ensures forall c | c in fused ::
      fused[c] == (if c in fused0 then fused0[c] else 0.0) + Contribution(ranking, c, rrfK)
  {
    fused, order := fused0, order0;
    forall c | c in fused ensures Contribution(ranking[..0], c, rrfK) == 0.0 {
    }
    for rank := 0 to |ranking|
      invariant Distinct(order) && forall c :: c in order <==> c in fused
      invariant forall c :: c in fused <==> c in fused0 || c in ranking[..rank]
      invariant forall c | c in fused ::
        fused[c] == (if c in fused0 then fused0[c] else 0.0) + Contribution(ranking[..rank], c, rrfK)
    {
      var id := ranking[rank];
      ghost var before := fused;
      forall c ensures Contribution(ranking[..rank + 1], c, rrfK)
                    == Contribution(ranking[..rank], c, rrfK) + if id == c then Weight(rrfK, rank) else 0.0
      {
        assert ranking[..rank + 1][..rank] == ranking[..rank];
      }
      if id !in fused {
        NotNamedNoScore(ranking[..rank], id, rrfK);
        order := order + [id];
      }
      fused := fused[id := (if id in fused then fused[id] else 0.0) + Weight(rrfK, rank)];
      assert ranking[..rank + 1] == ranking[..rank] + [id];
    }
    assert ranking[..|ranking|] == ranking;
  }

  lemma {:induction false} NotNamedNoScore(ranking: Ranking, c: nat, rrfK: nat)
    requires c !in ranking
    ensures Contribution(ranking, c, rrfK) == 0.0
  {
    if ranking != [] {
      NotNamedNoScore(ranking[..|ranking| - 1], c, rrfK);
    }
  }

  method Fuse(rankings: seq<Ranking>, rrfK: nat) returns (fused: map<nat, real>, order: seq<nat>)
    ensures Distinct(order) && forall c :: c in order <==> c in fused
    ensures forall c :: c in fused <==> Named(rankings, c)
    ensures forall c | c in fused :: fused[c] == Score(rankings, c, rrfK)
  {
    fused, order := map[], [];
    for n := 0 to |rankings|
      invariant Distinct(order) && forall c :: c in order <==> c in fused
      invariant forall c :: c in fused <==> Named(rankings[..n], c)
      invariant forall c | c in fused :: fused[c] == Score(rankings[..n], c, rrfK)
    {
      ghost var before := fused;
      fused, order := FuseOne(fused, order, rankings[n], rrfK);
      forall c ensures c in fused <==> Named(rankings[..n + 1], c) {
      }
      forall c | c in fused ensures fused[c] == Score(rankings[..n + 1], c, rrfK) {
        assert rankings[..n + 1][..n] == rankings[..n];
        if c !in before {
          UnnamedNoScore(rankings[..n], c, rrfK);
        }
      }
    }
    assert rankings[..|rankings|] == rankings;
  }

  lemma {:induction false} UnnamedNoScore(rankings: seq<Ranking>, c: nat, rrfK: nat)
    requires !Named(rankings, c)
    ensures Score(rankings, c, rrfK) == 0.0
  {
    if rankings != [] {
      var n := |rankings| - 1;
      assert rankings[..n + 1] == rankings;
      NotNamedNoScore(rankings[n], c, rrfK);
      UnnamedNoScore(rankings[..n], c, rrfK);
    }
  }

  // ----- being ahead -----

  lemma EarlierWeighsMore(rrfK: nat, i: nat, j: nat)
    requires i < j
    ensures Weight(rrfK, i) > Weight(rrfK, j) > 0.0
  {
    Reciprocals((rrfK + i + 1) as real, (rrfK + j + 1) as real);
  }

  lemma Reciprocals(x: real, y: real)
    requires 0.0 < x < y
    ensures 1.0 / x > 1.0 / y > 0.0
  {
    assert 1.0 / x - 1.0 / y == (y - x) / (x * y);
    assert x * y > 0.0;
  }

  lemma {:induction false} WeightOfPlace(ranking: Ranking, p: nat, rrfK: nat)
    requires Distinct(ranking) && p < |ranking|
    ensures Contribution(ranking, ranking[p], rrfK) == Weight(rrfK, p)
  {
    var n := |ranking| - 1;
    if p == n {
      NotNamedNoScore(ranking[..n], ranking[p], rrfK);
    } else {
      assert ranking[..n][p] == ranking[p];
      WeightOfPlace(ranking[..n], p, rrfK);
    }
  }

  // Where each ranking names a chunk, if it does.
  predicate PlacesOf(rankings: seq<Ranking>, c: nat, places: seq<Option<nat>>) {
    && |places| == |rankings|
    && forall i | 0 <= i < |rankings| ::
         match places[i]
         case Some(p) => p < |rankings[i]| && rankings[i][p] == c
         case None => c !in rankings[i]
  }

  // One over the constant plus the place counted from one, added up.
  function SumOfReciprocals(places: seq<Option<nat>>, rrfK: nat): real {
    if places == [] then 0.0
    else
      var n := |places| - 1;
      SumOfReciprocals(places[..n], rrfK) + if places[n].Some? then 1.0 / (rrfK + places[n].value + 1) as real else 0.0
  }

  // The fused score of a chunk is the reciprocal-rank sum over the rankings that
  // name it.
  lemma {:induction false} ScoreIsReciprocalRank(rankings: seq<Ranking>, c: nat, places: seq<Option<nat>>, rrfK: nat)
    requires forall i | 0 <= i < |rankings| :: Distinct(rankings[i])
    requires PlacesOf(rankings, c, places)
    ensures Score(rankings, c, rrfK) == SumOfReciprocals(places, rrfK)
  {
    if rankings != [] {
      var n := |rankings| - 1;
      ScoreIsReciprocalRank(rankings[..n], c, places[..n], rrfK);
      if places[n].Some? {
        WeightOfPlace(rankings[n], places[n].value, rrfK);
      } else {
        NotNamedNoScore(rankings[n], c, rrfK);
      }
    }
  }

  lemma ScoreOfTwo(fts: Ranking, vec: Ranking, c: nat, i: Option<nat>, j: Option<nat>, rrfK: nat)
    requires Distinct(fts) && Distinct(vec) && PlacesOf([fts, vec], c, [i, j])
    ensures Score([fts, vec], c, rrfK) ==
            (if i.Some? then 1.0 / (rrfK + i.value + 1) as real else 0.0)
            + (if j.Some? then 1.0 / (rrfK + j.value + 1) as real else 0.0)
  {
    ScoreIsReciprocalRank([fts, vec], c, [i, j], rrfK);
    assert [i, j][..1] == [i] && [i][..0] == [];
    assert SumOfReciprocals([i], rrfK) == if i.Some? then 1.0 / (rrfK + i.value + 1) as real else 0.0;
  }

  // When a chunk both rankings name beats one that only the first names; `swapped`
  // says it is only the second. Places up to the constant are always good enough.
  lemma BothBeatOne(fts: Ranking, vec: Ranking, a: nat, i: nat, j: nat, b: nat, p: nat, swapped: bool, rrfK: nat)
    requires Distinct(fts) && Distinct(vec)
    requires PlacesOf([fts, vec], a, [Some(i), Some(j)])
    requires PlacesOf([fts, vec], b, if swapped then [None, Some(p)] else [Some(p), None])
    ensures Score([fts, vec], a, rrfK) > Score([fts, vec], b, rrfK) <==>
            1.0 / (rrfK + i + 1) as real + 1.0 / (rrfK + j + 1) as real > 1.0 / (rrfK + p + 1) as real
    ensures i <= rrfK && j <= rrfK ==> Score([fts, vec], a, rrfK) > Score([fts, vec], b, rrfK)
  {
    ScoreOfTwo(fts, vec, a, Some(i), Some(j), rrfK);
    ScoreOfTwo(fts, vec, b, if swapped then None else Some(p), if swapped then Some(p) else None, rrfK);
    if i <= rrfK && j <= rrfK {
      HalfTogether((rrfK + i + 1) as real, (rrfK + j + 1) as real, (rrfK + p + 1) as real);
    }
  }

  lemma HalfTogether(x: real, y: real, z: real)
    requires 0.0 < x < 2.0 * z && 0.0 < y < 2.0 * z
    ensures 1.0 / x + 1.0 / y > 1.0 / z
  {
    Reciprocals(x, 2.0 * z);
    Reciprocals(y, 2.0 * z);
    assert 1.0 / (2.0 * z) + 1.0 / (2.0 * z) == 1.0 / z;
  }

  // In this ranking `a` comes before `b`, or `b` does not appear.
  predicate AheadIn(ranking: Ranking, a: nat, b: nat) {
    forall j | 0 <= j < |ranking| && ranking[j] == b :: a in ranking[..j]
  }

  lemma AheadGainsMore(ranking: Ranking, a: nat, b: nat, rrfK: nat)
    requires Distinct(ranking) && AheadIn(ranking, a, b)
    ensures Contribution(ranking, a, rrfK) >= Contribution(ranking, b, rrfK)
    ensures b in ranking ==> Contribution(ranking, a, rrfK) > Contribution(ranking, b, rrfK)
  {
    if b in ranking {
      var j :| 0 <= j < |ranking| && ranking[j] == b;
      var i :| 0 <= i < j && ranking[..j][i] == a;
      WeightOfPlace(ranking, i, rrfK);
      WeightOfPlace(ranking, j, rrfK);
      EarlierWeighsMore(rrfK, i, j);
    } else {
      NotNamedNoScore(ranking, b, rrfK);
    }
  }

  // A chunk ahead of another in every ranking that names the other scores
  // strictly higher.
  lemma {:induction false} AheadScoresHigher(rankings: seq<Ranking>, a: nat, b: nat, rrfK: nat)
    requires forall i | 0 <= i < |rankings| :: Distinct(rankings[i]) && AheadIn(rankings[i], a, b)
    ensures Score(rankings, a, rrfK) >= Score(rankings, b, rrfK)
    ensures Named(rankings, b) ==> Score(rankings, a, rrfK) > Score(rankings, b, rrfK)
  {
    if rankings != [] {
      var n := |rankings| - 1;
      AheadScoresHigher(rankings[..n], a, b, rrfK);
      AheadGainsMore(rankings[n], a, b, rrfK);
      assert rankings[..n + 1] == rankings;
    }
  }

  // ----- the best k -----

  predicate Descending(s: seq<nat>, score: map<nat, real>)
    requires forall c | c in s :: c in score
  {
    forall i, j | 0 <= i < j < |s| :: score[s[i]] >= score[s[j]]
  }

  function InsertAfterEquals(s: seq<nat>, x: nat, score: map<nat, real>): (r: seq<nat>)
    requires x in score && forall c | c in s :: c in score
    ensures multiset(r) == multiset(s) + multiset{x}
  {
    if s == [] then [x]
    else
      var n := |s| - 1;
      assert s == s[..n] + [s[n]];
      if score[s[n]] >= score[x] then s + [x]
      else InsertAfterEquals(s[..n], x, score) + [s[n]]
  }

  // A stable sort, highest score first.
  function Sorted(s: seq<nat>, score: map<nat, real>): (r: seq<nat>)
    requires forall c | c in s :: c in score
    ensures multiset(r) == multiset(s)
  {
    if s == [] then []
    else
      var n := |s| - 1;
      assert s == s[..n] + [s[n]];
      var before := Sorted(s[..n], score);
      SameElements(before, s[..n]);
      InsertAfterEquals(before, s[n], score)
  }

  lemma SameElements(r: seq<nat>, s: seq<nat>)
    requires multiset(r) == multiset(s)
    ensures forall c :: c in r <==> c in s
  {
    forall c ensures c in r <==> c in s {
      assert c in r <==> c in multiset(r);
      assert c in s <==> c in multiset(s);
    }
  }

  lemma {:induction false} InsertKeepsDescending(s: seq<nat>, x: nat, score: map<nat, real>)
    requires x in score && (forall c | c in s :: c in score) && Descending(s, score)
    ensures forall c | c in InsertAfterEquals(s, x, score) :: c in score
    ensures Descending(InsertAfterEquals(s, x, score), score)
  {
    if s != [] {
      var n := |s| - 1;
      forall c | c in s ensures score[c] >= score[s[n]] {
        var i :| 0 <= i <= n && s[i] == c;
      }
      if score[s[n]] >= score[x] {
      } else {
        var before := InsertAfterEquals(s[..n], x, score);
        InsertKeepsDescending(s[..n], x, score);
        SameElements(before, s[..n] + [x]);
        forall c | c in before ensures score[c] >= score[s[n]] {
          assert c in s[..n] || c == x;
        }
      }
    }
  }

  lemma {:induction false} SortedDescending(s: seq<nat>, score: map<nat, real>)
    requires forall c | c in s :: c in score
    ensures forall c | c in Sorted(s, score) :: c in score
    ensures Descending(Sorted(s, score), score)
  {
    SameElements(Sorted(s, score), s);
    if s != [] {
      var n := |s| - 1;
      SortedDescending(s[..n], score);
      SameElements(Sorted(s[..n], score), s[..n]);
      InsertKeepsDescending(Sorted(s[..n], score), s[n], score);
    }
  }

  lemma DistinctBySize(r: seq<nat>, s: seq<nat>)
    requires multiset(r) == multiset(s) && Distinct(s)
    ensures Distinct(r)
  {
    forall c ensures multiset(s)[c] <= 1 {
      OnceEach(s, c);
    }
    forall i, j | 0 <= i < j < |r| ensures r[i] != r[j] {
      if r[i] == r[j] {
        TwiceIn(r, i, j);
      }
      assert multiset(s)[r[i]] <= 1;
    }
  }

  lemma {:induction false} OnceEach(s: seq<nat>, c: nat)
    requires Distinct(s)
    ensures multiset(s)[c] <= 1
  {
    if s != [] {
      var n := |s| - 1;
      assert s == s[..n] + [s[n]];
      OnceEach(s[..n], c);
    }
  }

  lemma TwiceIn(r: seq<nat>, i: nat, j: nat)
    requires i < j < |r| && r[i] == r[j]
    ensures multiset(r)[r[i]] >= 2
  {
    assert r == r[..j] + [r[j]] + r[j + 1..];
    assert r[..j][i] == r[i];
    assert r[i] in multiset(r[..j]);
  }

  // ----- search -----

  datatype Result = Result(doc: Id, chunk: nat, ord: nat, score: real)

  function RowOf(rows: seq<Row>, id: nat): Option<Row> {
    if rows == [] then None
    else if rows[|rows| - 1].id == id then Some(rows[|rows| - 1])
    else RowOf(rows[..|rows| - 1], id)
  }

  lemma {:induction false} RowOfIs(rows: seq<Row>, r: Row)
    requires Increasing(rows) && r in rows
    ensures RowOf(rows, r.id) == Some(r)
  {
    var n := |rows| - 1;
    if rows[n].id == r.id {
      var i :| 0 <= i < |rows| && rows[i] == r;
      assert i == n;
    } else {
      assert rows == rows[..n] + [rows[n]];
      RowOfIs(rows[..n], r);
    }
  }

  // The content belongs to a document that was found and is ready.
  predicate Covered(t: Tables, found: seq<Id>, h: Hash) {
    h != "" && exists id | id in found :: Holds(t, id, h)
  }

  // What either engine's query returns: chunks of the searched contents.
  predicate InScope(t: Tables, found: seq<Id>, c: nat) {
    exists r | r in t.rows :: r.id == c && Covered(t, found, r.hash)
  }

  lemma ScopedRow(t: Tables, found: seq<Id>, c: nat)
    requires Agrees(t) && InScope(t, found, c)
    ensures RowOf(t.rows, c).Some? && Covered(t, found, RowOf(t.rows, c).value.hash)
    ensures RowOf(t.rows, c).value in t.rows && RowOf(t.rows, c).value.id == c
  {
    var r :| r in t.rows && r.id == c && Covered(t, found, r.hash);
    RowOfIs(t.rows, r);
  }

  // A result stands for a chunk of a ready document that was asked about, the first
  // of those that hold it.
  predicate Honest(t: Tables, found: seq<Id>, r: Result) {
    exists row | row in t.rows :: row.id == r.chunk && row.ord == r.ord && ReportedAs(t, found, row.hash, r.doc)
  }

  // The full-text and vector rankings are taken as given: any orders of chunks in
  // scope. `found` is the named documents, in the order the database has them.
  method Search(t: Tables, found: seq<Id>, fts: Ranking, vec: Ranking, k: nat, rrfK: nat) returns (results: seq<Result>)
    requires Agrees(t)
    requires forall c | c in fts || c in vec :: InScope(t, found, c)
    ensures |results| <= k
    ensures forall i | 0 <= i < |results| :: Honest(t, found, results[i])
    ensures forall i | 0 <= i < |results| ::
      Named([fts, vec], results[i].chunk) && results[i].score == Score([fts, vec], results[i].chunk, rrfK)
    ensures forall i, j | 0 <= i < j < |results| ::
      results[i].chunk != results[j].chunk && results[i].score >= results[j].score
    ensures forall c | Named([fts, vec], c) && (forall i | 0 <= i < |results| :: results[i].chunk != c) ::
      |results| == k && forall i | 0 <= i < k :: results[i].score >= Score([fts, vec], c, rrfK)
  {
    var byHash := HashToDoc(t, found);
    var fused, order := Fuse([fts, vec], rrfK);
    var top := Top(order, fused, k);
    forall c | c in fused ensures InScope(t, found, c) {
      assert Named([fts, vec], c);
    }
    results := Answer(t, found, byHash, top, fused);
    forall c | Named([fts, vec], c) && (forall i | 0 <= i < |results| :: results[i].chunk != c)
      ensures |results| == k && forall i | 0 <= i < k :: results[i].score >= Score([fts, vec], c, rrfK)
    {
      assert c in fused && c !in top;
    }
  }

  // The rows behind the best chunks, each under the document it is reported as.
  method Answer(t: Tables, found: seq<Id>, byHash: map<Hash, Id>, top: seq<nat>, fused: map<nat, real>)
    returns (results: seq<Result>)
    requires Agrees(t) && forall c | c in top :: c in fused && InScope(t, found, c)
    requires MapsContents(t, found, byHash)
    ensures |results| == |top|
    ensures forall i | 0 <= i < |top| :: results[i].chunk == top[i] && results[i].score == fused[top[i]]
    ensures forall i | 0 <= i < |top| :: Honest(t, found, results[i])
  {
    results := [];
    for n := 0 to |top|
      invariant |results| == n
      invariant forall i | 0 <= i < n :: results[i].chunk == top[i] && results[i].score == fused[top[i]]
      invariant forall i | 0 <= i < n :: Honest(t, found, results[i])
    {
      var c := top[n];
      assert c in top;
      ScopedRow(t, found, c);
      var row := RowOf(t.rows, c).value;
      assert row.hash in byHash by {
        var id :| id in found && Holds(t, id, row.hash);
        var m :| 0 <= m < |found| && found[m] == id;
      }
      results := results + [Result(byHash[row.hash], c, row.ord, fused[c])];
    }
  }

  method Top(order: seq<nat>, fused: map<nat, real>, k: nat) returns (top: seq<nat>)
    requires Distinct(order) && forall c :: c in order <==> c in fused
    ensures |top| <= k && Distinct(top) && forall c | c in top :: c in fused
    ensures Descending(top, fused)
    ensures forall c | c in fused && c !in top :: |top| == k && forall i | 0 <= i < k :: fused[top[i]] >= fused[c]
  {
    var all := Sorted(order, fused);
    SameElements(all, order);
    SortedDescending(order, fused);
    DistinctBySize(all, order);
    top := if k < |all| then all[..k] else all;
    forall c | c in fused && c !in top ensures |top| == k && forall i | 0 <= i < k :: fused[top[i]] >= fused[c] {
      assert c in all;
      var j :| 0 <= j < |all| && all[j] == c;
    }
  }
}

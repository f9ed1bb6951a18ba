// The document store (rag/store.py): content kept once under its hash with a
// reference count, chunks in rowid order, and a full-text index that is told of
// every chunk written or deleted.

module RagStore {
  import opened Text

  type Hash = string
  type Id = string

  datatype Content = Content(refcount: int, chunkCount: nat)
  datatype Status = Pending | Ready | Failed(error: string)
  datatype Doc = Doc(hash: Option<Hash>, status: Status)
  datatype Row = Row(id: nat, hash: Hash, ord: nat, text: string)
  type Posting = (nat, string)

  datatype Tables = Tables(contents: map<Hash, Content>, docs: map<Id, Doc>,
                           rows: seq<Row>, fts: multiset<Posting>)

  // ----- what each statement does -----

  function Of(rows: seq<Row>, h: Hash): seq<Row> {
    if rows == [] then []
    else
      var last := rows[|rows| - 1];
      Of(rows[..|rows| - 1], h) + if last.hash == h then [last] else []
  }

  function NotOf(rows: seq<Row>, h: Hash): seq<Row> {
    if rows == [] then []
    else
      var last := rows[|rows| - 1];
      NotOf(rows[..|rows| - 1], h) + if last.hash == h then [] else [last]
  }

  function Postings(rows: seq<Row>): multiset<Posting> {
    if rows == [] then multiset{}
    else
      var last := rows[|rows| - 1];
      Postings(rows[..|rows| - 1]) + multiset{(last.id, last.text)}
  }

  // The next rowid of an INTEGER PRIMARY KEY: one more than the largest in use.
  function NextId(rows: seq<Row>): nat {
    if rows == [] then 1 else rows[|rows| - 1].id + 1
  }

  function Inserted(t: Tables, h: Hash, ord: nat, text: string): Tables {
    var id := NextId(t.rows);
    t.(rows := t.rows + [Row(id, h, ord, text)], fts := t.fts + multiset{(id, text)})
  }

  function InsertedAll(t: Tables, h: Hash, texts: seq<string>): Tables {
    if texts == [] then t
    else
      var n := |texts| - 1;
      Inserted(InsertedAll(t, h, texts[..n]), h, n, texts[n])
  }

  function Stored(t: Tables, h: Hash, texts: seq<string>): Tables {
    if h in t.contents then t
    else InsertedAll(t.(contents := t.contents[h := Content(0, |texts|)]), h, texts)
  }

  function Attached(t: Tables, id: Id, h: Hash): Tables {
    var docs := if id in t.docs then t.docs[id := Doc(Some(h), Ready)] else t.docs;
    var contents :=
      if h in t.contents then
        t.contents[h := t.contents[h].(refcount := t.contents[h].refcount + 1)]
      else t.contents;
    t.(docs := docs, contents := contents)
  }

  function MarkedFailed(t: Tables, id: Id, error: string): Tables {
    if id in t.docs then t.(docs := t.docs[id := t.docs[id].(status := Failed(error))]) else t
  }

  function Dropped(t: Tables, h: Hash): Tables {
    t.(contents := t.contents - {h}, rows := NotOf(t.rows, h), fts := t.fts - Postings(Of(t.rows, h)))
  }

  function Released(t: Tables, h: Hash): Tables {
    if h !in t.contents then t
    else
      var left := t.contents[h].refcount - 1;
      var t' := t.(contents := t.contents[h := t.contents[h].(refcount := left)]);
      if left <= 0 then Dropped(t', h) else t'
  }

  function DeletedOne(t: Tables, id: Id): Tables {
    if id !in t.docs then t
    else
      var h := t.docs[id].hash;
      var t' := t.(docs := t.docs - {id});
      if h.None? || h.value == "" then t' else Released(t', h.value)
  }

  function Deleted(t: Tables, ids: seq<Id>): Tables {
    if ids == [] then t else DeletedOne(Deleted(t, ids[..|ids| - 1]), ids[|ids| - 1])
  }

  // How many of the ids named a document when their turn came.
  function DeletedCount(t: Tables, ids: seq<Id>): nat {
    if ids == [] then 0
    else
      var before := ids[..|ids| - 1];
      DeletedCount(t, before) + if ids[|ids| - 1] in Deleted(t, before).docs then 1 else 0
  }

  // ----- the store -----

  class Store {
    var contents: map<Hash, Content>
    var docs: map<Id, Doc>
    var rows: seq<Row>
    var fts: multiset<Posting>

    function State(): Tables
      reads this
    {
      Tables(contents, docs, rows, fts)
    }

    constructor ()
      ensures State() == Tables(map[], map[], [], multiset{})
    {
      contents, docs, rows, fts := map[], map[], [], multiset{};
    }

    method CreatePending(id: Id)
      modifies this
      ensures State() == old(State()).(docs := old(docs)[id := Doc(None, Pending)])
    {
      docs := docs[id := Doc(None, Pending)];
    }

    // One chunk, and the trigger that tells the index.
    method InsertChunk(h: Hash, ord: nat, text: string)
      modifies this
      ensures State() == Inserted(old(State()), h, ord, text)
    {
      var id := NextId(rows);
      rows := rows + [Row(id, h, ord, text)];
      fts := fts + multiset{(id, text)};
    }

    // Written once: the second of two racing ingests of the same bytes changes
    // nothing.
    method StoreContent(h: Hash, texts: seq<string>)
      modifies this
      ensures State() == Stored(old(State()), h, texts)
    {
      if h in contents {
        return;
      }
      contents := contents[h := Content(0, |texts|)];
      ghost var start := State();
      for i := 0 to |texts|
        invariant State() == InsertedAll(start, h, texts[..i])
      {
        InsertChunk(h, i, texts[i]);
        InsertedNext(start, h, texts, i);
      }
      assert texts[..|texts|] == texts;
    }

    method Attach(id: Id, h: Hash)
      modifies this
      ensures State() == Attached(old(State()), id, h)
    {
      if id in docs {
        docs := docs[id := Doc(Some(h), Ready)];
      }
      if h in contents {
        contents := contents[h := contents[h].(refcount := contents[h].refcount + 1)];
      }
    }

    method MarkFailed(id: Id, error: string)
      modifies this
      ensures State() == MarkedFailed(old(State()), id, error[..Min(|error|, 500)])
      // at most five hundred characters of the error are kept
      ensures |error| <= 500 ==> State() == MarkedFailed(old(State()), id, error)
      ensures |error| > 500 ==> State() == MarkedFailed(old(State()), id, error[..500])
    {
      assert error[..|error|] == error;
      if id in docs {
        docs := docs[id := docs[id].(status := Failed(error[..Min(|error|, 500)]))];
      }
    }

    // The chunks of a content, and the trigger's delete for each of them.
    method DropChunks(h: Hash)
      modifies this
      ensures State() == old(State()).(rows := NotOf(old(rows), h), fts := old(fts) - Postings(Of(old(rows), h)))
    {
      var kept, index := Unindex(rows, fts, h);
      rows, fts := kept, index;
    }

    method Release(h: Hash)
      modifies this
      ensures State() == Released(old(State()), h)
    {
      if h in contents {
        contents := contents[h := contents[h].(refcount := contents[h].refcount - 1)];
        if contents[h].refcount <= 0 {
          DropChunks(h);
          contents := contents - {h};
        }
      }
    }

    method Delete(ids: seq<Id>) returns (deleted: nat)
      modifies this
      ensures State() == Deleted(old(State()), ids)
      ensures deleted == DeletedCount(old(State()), ids)
    {
      deleted := 0;
      for n := 0 to |ids|
        invariant State() == Deleted(old(State()), ids[..n])
        invariant deleted == DeletedCount(old(State()), ids[..n])
      {
        assert ids[..n + 1][..n] == ids[..n];
        var id := ids[n];
        if id !in docs {
          continue;
        }
        var h := docs[id].hash;
        docs := docs - {id};
        deleted := deleted + 1;
        if h.None? || h.value == "" {
          continue;
        }
        Release(h.value);
      }
      assert ids[..|ids|] == ids;
    }
  }

  method Unindex(rows: seq<Row>, fts: multiset<Posting>, h: Hash) returns (kept: seq<Row>, index: multiset<Posting>)
    ensures kept == NotOf(rows, h) && index == fts - Postings(Of(rows, h))
  {
    kept, index := [], fts;
    for n := 0 to |rows|
      invariant kept == NotOf(rows[..n], h)
      invariant index == fts - Postings(Of(rows[..n], h))
    {
      var r := rows[n];
      PrefixNext(rows, n, h);
      if r.hash == h {
        UnindexNext(fts, Of(rows[..n], h), r);
        index := index - multiset{(r.id, r.text)};
      } else {
        kept := kept + [r];
      }
    }
    assert rows[..|rows|] == rows;
  }

  lemma UnindexNext(fts: multiset<Posting>, gone: seq<Row>, r: Row)
    ensures fts - Postings(gone) - multiset{(r.id, r.text)} == fts - Postings(gone + [r])
  {}

  lemma PrefixNext(rows: seq<Row>, n: nat, h: Hash)
    requires n < |rows|
    ensures Of(rows[..n + 1], h) == if rows[n].hash == h then Of(rows[..n], h) + [rows[n]] else Of(rows[..n], h)
    ensures NotOf(rows[..n + 1], h) == if rows[n].hash == h then NotOf(rows[..n], h) else NotOf(rows[..n], h) + [rows[n]]
  {
    assert rows[..n + 1][..n] == rows[..n];
  }

  function Min(a: nat, b: nat): nat {
    if a < b then a else b
  }

  lemma InsertedNext(t: Tables, h: Hash, texts: seq<string>, i: nat)
    requires i < |texts|
    ensures InsertedAll(t, h, texts[..i + 1]) == Inserted(InsertedAll(t, h, texts[..i]), h, i, texts[i])
  {
    assert texts[..i + 1][..i] == texts[..i];
  }

  // ----- the index agrees with the tables -----

  ghost predicate Increasing(rows: seq<Row>) {
    forall i, j | 0 <= i < j < |rows| :: rows[i].id < rows[j].id
  }

  // A content's chunks, in rowid order, carry ords 0, 1, ... up to their count.
  ghost predicate InOrder(rows: seq<Row>, h: Hash, n: nat) {
    var own := Of(rows, h);
    |own| == n && forall i | 0 <= i < n :: own[i].ord == i
  }

  ghost predicate Owned(t: Tables, h: Hash) {
    if h in t.contents then InOrder(t.rows, h, t.contents[h].chunkCount) else Of(t.rows, h) == []
  }

  ghost predicate Agrees(t: Tables) {
    && t.fts == Postings(t.rows)
    && Increasing(t.rows)
    && forall h :: Owned(t, h)
  }

  lemma OfAppend(rows: seq<Row>, r: Row, h: Hash)
    ensures Of(rows + [r], h) == Of(rows, h) + if r.hash == h then [r] else []
  {
    assert (rows + [r])[..|rows|] == rows;
  }

  // A row is among the chunks of its own content.
  lemma {:induction false} RowIsOwned(rows: seq<Row>, r: Row)
    requires r in rows
    ensures r in Of(rows, r.hash)
  {
    var before, last := rows[..|rows| - 1], rows[|rows| - 1];
    assert rows == before + [last];
    if r in before {
      RowIsOwned(before, r);
    }
  }

  lemma {:induction false} NotOfOthers(rows: seq<Row>, h: Hash, g: Hash)
    ensures Of(NotOf(rows, h), g) == if g == h then [] else Of(rows, g)
  {
    if rows != [] {
      var n := |rows| - 1;
      NotOfOthers(rows[..n], h, g);
      assert rows[..n + 1] == rows;
      PrefixNext(rows, n, h);
      PrefixNext(rows, n, g);
      OfAppend(NotOf(rows[..n], h), rows[n], g);
    }
  }

  lemma {:induction false} PostingsSplit(rows: seq<Row>, h: Hash)
    ensures Postings(rows) == Postings(NotOf(rows, h)) + Postings(Of(rows, h))
  {
    if rows != [] {
      var n := |rows| - 1;
      var kept, gone, x := NotOf(rows[..n], h), Of(rows[..n], h), multiset{(rows[n].id, rows[n].text)};
      PostingsSplit(rows[..n], h);
      assert rows[..n + 1] == rows;
      PrefixNext(rows, n, h);
    }
  }

  lemma {:induction false} NotOfIncreasing(rows: seq<Row>, h: Hash)
    requires Increasing(rows)
    ensures Increasing(NotOf(rows, h))
    ensures forall i | 0 <= i < |NotOf(rows, h)| :: NotOf(rows, h)[i].id < NextId(rows)
  {
    if rows != [] {
      NotOfIncreasing(rows[..|rows| - 1], h);
    }
  }

  // What holds while a content's chunks are being written: `n` of them are in.
  ghost predicate Writing(t: Tables, h: Hash, n: nat) {
    && t.fts == Postings(t.rows)
    && Increasing(t.rows)
    && InOrder(t.rows, h, n)
  }

  lemma InsertedKeeps(t: Tables, h: Hash, n: nat, text: string)
    requires Writing(t, h, n)
    ensures Writing(Inserted(t, h, n, text), h, n + 1)
    ensures forall g | g != h :: Of(Inserted(t, h, n, text).rows, g) == Of(t.rows, g)
  {
    var r := Row(NextId(t.rows), h, n, text);
    OfAppend(t.rows, r, h);
    forall g | g != h ensures Of(t.rows + [r], g) == Of(t.rows, g) {
      OfAppend(t.rows, r, g);
    }
  }

  lemma {:induction false} InsertedAllKeeps(t: Tables, h: Hash, texts: seq<string>)
    requires Writing(t, h, 0)
    ensures Writing(InsertedAll(t, h, texts), h, |texts|)
    ensures InsertedAll(t, h, texts).contents == t.contents && InsertedAll(t, h, texts).docs == t.docs
    ensures forall g | g != h :: Of(InsertedAll(t, h, texts).rows, g) == Of(t.rows, g)
  {
    if texts != [] {
      var n := |texts| - 1;
      InsertedAllKeeps(t, h, texts[..n]);
      InsertedKeeps(InsertedAll(t, h, texts[..n]), h, n, texts[n]);
    }
  }

  lemma StoredAgrees(t: Tables, h: Hash, texts: seq<string>)
    requires Agrees(t)
    ensures Agrees(Stored(t, h, texts))
    ensures Stored(t, h, texts).docs == t.docs
    ensures h in Stored(t, h, texts).contents
  {
    if h !in t.contents {
      assert Owned(t, h);
      InsertedAllKeeps(t.(contents := t.contents[h := Content(0, |texts|)]), h, texts);
      forall g ensures Owned(Stored(t, h, texts), g) {
        assert Owned(t, g);
      }
    }
  }

  lemma InsertedOf(t: Tables, h: Hash, ord: nat, text: string)
    ensures Of(Inserted(t, h, ord, text).rows, h) == Of(t.rows, h) + [Row(NextId(t.rows), h, ord, text)]
  {
    OfAppend(t.rows, Row(NextId(t.rows), h, ord, text), h);
  }

  // What a first store writes is exactly the chunks it was given, in order.
  lemma {:induction false} StoredTexts(t: Tables, h: Hash, texts: seq<string>)
    requires Of(t.rows, h) == []
    ensures |Of(InsertedAll(t, h, texts).rows, h)| == |texts|
    ensures forall i | 0 <= i < |texts| :: Of(InsertedAll(t, h, texts).rows, h)[i].text == texts[i]
  {
    if texts != [] {
      var n := |texts| - 1;
      StoredTexts(t, h, texts[..n]);
      InsertedOf(InsertedAll(t, h, texts[..n]), h, n, texts[n]);
    }
  }

  lemma DroppedAgrees(t: Tables, h: Hash)
    requires Agrees(t)
    ensures Agrees(Dropped(t, h))
  {
    PostingsSplit(t.rows, h);
    NotOfIncreasing(t.rows, h);
    forall g ensures Owned(Dropped(t, h), g) {
      assert Owned(t, g);
      NotOfOthers(t.rows, h, g);
    }
  }

  lemma DeletedOneAgrees(t: Tables, id: Id)
    requires Agrees(t)
    ensures Agrees(DeletedOne(t, id))
  {
    if id in t.docs {
      var t' := t.(docs := t.docs - {id});
      forall g ensures Owned(t', g) {
        assert Owned(t, g);
      }
      if t.docs[id].hash.Some? {
        ReleasedAgrees(t', t.docs[id].hash.value);
      }
    }
  }

  lemma ReleasedAgrees(t: Tables, h: Hash)
    requires Agrees(t)
    ensures Agrees(Released(t, h))
  {
    if h in t.contents {
      var c := t.contents[h];
      var t' := t.(contents := t.contents[h := c.(refcount := c.refcount - 1)]);
      forall g ensures Owned(t', g) {
        assert Owned(t, g);
      }
      DroppedAgrees(t', h);
    }
  }

  lemma {:induction false} DeletedAgrees(t: Tables, ids: seq<Id>)
    requires Agrees(t)
    ensures Agrees(Deleted(t, ids))
  {
    if ids != [] {
      DeletedAgrees(t, ids[..|ids| - 1]);
      DeletedOneAgrees(Deleted(t, ids[..|ids| - 1]), ids[|ids| - 1]);
    }
  }

  // ----- reference counts -----

  function Pointing(t: Tables, h: Hash): set<Id> {
    set id | id in t.docs && t.docs[id].hash == Some(h)
  }

  ghost predicate Counted(t: Tables, h: Hash) {
    if h in t.contents then t.contents[h].refcount == |Pointing(t, h)| else Pointing(t, h) == {}
  }

  // Every count is the number of documents pointing at the content, and no
  // document points at content that is not there.
  ghost predicate Exact(t: Tables) {
    forall h :: Counted(t, h)
  }

  lemma StoredExact(t: Tables, h: Hash, texts: seq<string>)
    requires Agrees(t) && Exact(t)
    ensures Exact(Stored(t, h, texts))
  {
    StoredAgrees(t, h, texts);
    var t' := Stored(t, h, texts);
    if h !in t.contents {
      assert Owned(t, h);
      InsertedAllKeeps(t.(contents := t.contents[h := Content(0, |texts|)]), h, texts);
    }
    forall g ensures Counted(t', g) {
      assert Counted(t, g);
      assert Pointing(t', g) == Pointing(t, g);
    }
  }

  // Exactly when attaching keeps every count right: the document exists, points
  // nowhere yet and the content is there; or neither exists and nothing is done.
  predicate CanAttach(t: Tables, id: Id, h: Hash) {
    if id in t.docs then t.docs[id].hash.None? && h in t.contents else h !in t.contents
  }

  lemma AttachedPoints(t: Tables, id: Id, h: Hash, g: Hash)
    ensures Pointing(Attached(t, id, h), g)
         == if id !in t.docs then Pointing(t, g) else if g == h then Pointing(t, g) + {id} else Pointing(t, g) - {id}
  {}

  lemma AttachExact(t: Tables, id: Id, h: Hash)
    requires Exact(t)
    ensures Exact(Attached(t, id, h)) <==> CanAttach(t, id, h)
  {
    var t' := Attached(t, id, h);
    if CanAttach(t, id, h) {
      forall g ensures Counted(t', g) {
        assert Counted(t, g);
        AttachedPoints(t, id, h, g);
        if id in t.docs {
          assert id !in Pointing(t, g);
        }
      }
    } else {
      var g := if id in t.docs && t.docs[id].hash.Some? then t.docs[id].hash.value else h;
      assert Counted(t, g) && Counted(t, h);
      AttachedPoints(t, id, h, g);
      AttachedPoints(t, id, h, h);
      assert !Counted(t', g) || !Counted(t', h);
    }
  }

  lemma ReleasedPoints(t: Tables, id: Id, g: Hash)
    requires id in t.docs
    ensures DeletedOne(t, id).docs == t.docs - {id}
    ensures Pointing(DeletedOne(t, id), g) == Pointing(t, g) - {id}
  {}

  predicate NoEmptyHash(t: Tables) {
    forall id | id in t.docs :: t.docs[id].hash != Some("")
  }

  // A delete always keeps the counts right.
  lemma DeletedOneExact(t: Tables, id: Id)
    requires Exact(t) && NoEmptyHash(t)
    ensures Exact(DeletedOne(t, id)) && NoEmptyHash(DeletedOne(t, id))
  {
    if id in t.docs {
      ReleasedPoints(t, id, "");
      forall g ensures Counted(DeletedOne(t, id), g) {
        DeletedOneCounted(t, id, g);
      }
    }
  }

  lemma DeletedOneCounted(t: Tables, id: Id, g: Hash)
    requires id in t.docs && Exact(t) && NoEmptyHash(t)
    ensures Counted(DeletedOne(t, id), g)
  {
    assert Counted(t, g);
    ReleasedPoints(t, id, g);
    var hash := t.docs[id].hash;
    if hash.Some? {
      assert Counted(t, hash.value);
      assert id in Pointing(t, hash.value);
    }
    if hash != Some(g) {
      assert Pointing(t, g) - {id} == Pointing(t, g);
    }
  }

  lemma {:induction false} DeletedExact(t: Tables, ids: seq<Id>)
    requires Exact(t) && NoEmptyHash(t)
    ensures Exact(Deleted(t, ids)) && NoEmptyHash(Deleted(t, ids))
  {
    if ids != [] {
      DeletedExact(t, ids[..|ids| - 1]);
      DeletedOneExact(Deleted(t, ids[..|ids| - 1]), ids[|ids| - 1]);
    }
  }

  // Deleting documents leaves another one, and the content it points at, as they were.
  lemma {:induction false} DeleteSpares(t: Tables, ids: seq<Id>, other: Id, h: Hash)
    requires Agrees(t) && Exact(t) && NoEmptyHash(t)
    requires other in t.docs && t.docs[other].hash == Some(h) && other !in ids
    ensures other in Deleted(t, ids).docs && Deleted(t, ids).docs[other] == t.docs[other]
    ensures h in Deleted(t, ids).contents
    ensures Of(Deleted(t, ids).rows, h) == Of(t.rows, h)
  {
    assert Counted(t, h) && other in Pointing(t, h);
    if ids != [] {
      var before, id := ids[..|ids| - 1], ids[|ids| - 1];
      DeleteSpares(t, before, other, h);
      DeletedExact(t, before);
      DeletedAgrees(t, before);
      DeleteOneSpares(Deleted(t, before), id, other, h);
    }
  }

  lemma DeleteOneSpares(t: Tables, id: Id, other: Id, h: Hash)
    requires Agrees(t) && Exact(t) && NoEmptyHash(t)
    requires other in t.docs && t.docs[other].hash == Some(h) && other != id
    ensures other in DeletedOne(t, id).docs && DeletedOne(t, id).docs[other] == t.docs[other]
    ensures h in DeletedOne(t, id).contents
    ensures Of(DeletedOne(t, id).rows, h) == Of(t.rows, h)
  {
    assert Counted(t, h) && other in Pointing(t, h);
    if id in t.docs {
      DeletedOneExact(t, id);
      assert Counted(DeletedOne(t, id), h);
      ReleasedPoints(t, id, h);
      assert other in Pointing(t, h) - {id};
      if t.docs[id].hash.Some? {
        NotOfOthers(t.rows, t.docs[id].hash.value, h);
      }
    }
  }

  // A count that is too high is never put right: no delete removes that content.
  lemma {:induction false} LeakIsForever(t: Tables, ids: seq<Id>, h: Hash)
    requires h in t.contents && t.contents[h].refcount > |Pointing(t, h)|
    ensures h in Deleted(t, ids).contents
    ensures Deleted(t, ids).contents[h].refcount > |Pointing(Deleted(t, ids), h)|
  {
    if ids != [] {
      var t', id := Deleted(t, ids[..|ids| - 1]), ids[|ids| - 1];
      LeakIsForever(t, ids[..|ids| - 1], h);
      OneKeepsLeak(t', id, h);
    }
  }

  lemma OneKeepsLeak(t: Tables, id: Id, h: Hash)
    requires h in t.contents && t.contents[h].refcount > |Pointing(t, h)|
    ensures h in DeletedOne(t, id).contents
    ensures DeletedOne(t, id).contents[h].refcount > |Pointing(DeletedOne(t, id), h)|
  {
    if id in t.docs {
      ReleasedPoints(t, id, h);
      if t.docs[id].hash == Some(h) {
        assert id in Pointing(t, h);
      } else {
        assert Pointing(t, h) - {id} == Pointing(t, h);
      }
    }
  }
}

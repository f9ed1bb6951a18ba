// Runs of the document store: any number of ingest jobs (rag/server.py), each
// checking, storing and attaching, interleaved with deletes.

module RagRuns {
  import opened Text
  import opened RagStore

  datatype Phase = Queued | Missing | Found | Done
  datatype Job = Job(hash: Hash, phase: Phase)
  datatype Run = Run(t: Tables, jobs: map<Id, Job>)

  datatype Step =
    | Create(id: Id, hash: Hash)
    | Check(id: Id)
    | Write(id: Id, texts: seq<string>)
    | Point(id: Id)
    | Fail(id: Id, error: string)
    | Delete(ids: seq<Id>)

  predicate In(r: Run, id: Id, phase: Phase) {
    id in r.jobs && r.jobs[id].phase == phase
  }

  predicate Enabled(r: Run, s: Step) {
    match s
    case Create(id, hash) => id !in r.t.docs && id !in r.jobs && hash != ""
    case Check(id) => In(r, id, Queued)
    case Write(id, texts) => In(r, id, Missing) && texts != []
    case Point(id) => In(r, id, Found)
    case Fail(id, _) => id in r.jobs && r.jobs[id].phase != Done
    case Delete(_) => true
  }

  function Moved(r: Run, id: Id, phase: Phase): map<Id, Job>
    requires id in r.jobs
  {
    r.jobs[id := r.jobs[id].(phase := phase)]
  }

  function Next(r: Run, s: Step): Run
    requires Enabled(r, s)
  {
    match s
    case Create(id, hash) =>
      Run(r.t.(docs := r.t.docs[id := Doc(None, Pending)]), r.jobs[id := Job(hash, Queued)])
    case Check(id) =>
      r.(jobs := Moved(r, id, if r.jobs[id].hash in r.t.contents then Found else Missing))
    case Write(id, texts) =>
      Run(Stored(r.t, r.jobs[id].hash, texts), Moved(r, id, Found))
    case Point(id) =>
      Run(Attached(r.t, id, r.jobs[id].hash), Moved(r, id, Done))
    case Fail(id, error) =>
      Run(MarkedFailed(r.t, id, error), Moved(r, id, Done))
    case Delete(ids) =>
      r.(t := Deleted(r.t, ids))
  }

  // The last of the run's states.
  ghost predicate Reaches(r: Run, steps: seq<Step>, last: Run)
    decreases |steps|
  {
    if steps == [] then r == last
    else Enabled(r, steps[0]) && Reaches(Next(r, steps[0]), steps[1..], last)
  }

  // ----- the index, on every interleaving -----

  lemma StepAgrees(r: Run, s: Step)
    requires Agrees(r.t) && Enabled(r, s)
    ensures Agrees(Next(r, s).t)
  {
    var t' := Next(r, s).t;
    match s
    case Write(id, texts) => StoredAgrees(r.t, r.jobs[id].hash, texts);
    case Delete(ids) => DeletedAgrees(r.t, ids);
    case _ =>
      forall h ensures Owned(t', h) {
        assert Owned(r.t, h);
      }
  }

  // At the end of any run the index is the chunk rows, the chunks of a content are
  // numbered 0, 1, ... up to its count, and every chunk's content is there.
  lemma {:induction false} RunAgrees(r: Run, steps: seq<Step>, last: Run)
    requires Agrees(r.t) && Reaches(r, steps, last)
    ensures Agrees(last.t)
    ensures forall x | x in last.t.rows :: x.hash in last.t.contents
    decreases |steps|
  {
    if steps != [] {
      StepAgrees(r, steps[0]);
      RunAgrees(Next(r, steps[0]), steps[1..], last);
    } else {
      forall x | x in last.t.rows ensures x.hash in last.t.contents {
        RowIsOwned(last.t.rows, x);
        assert Owned(last.t, x.hash);
      }
    }
  }

  // ----- the counts -----

  // A job that is not over has not pointed its document anywhere.
  predicate Unattached(r: Run, id: Id)
    requires id in r.jobs
  {
    && r.jobs[id].hash != ""
    && (r.jobs[id].phase != Done && id in r.t.docs ==> r.t.docs[id].hash.None?)
  }

  ghost predicate Tracked(r: Run) {
    && NoEmptyHash(r.t)
    && forall id | id in r.jobs :: Unattached(r, id)
  }

  lemma {:induction false} DeletedDocs(t: Tables, ids: seq<Id>, id: Id)
    ensures id in Deleted(t, ids).docs ==> id in t.docs && Deleted(t, ids).docs[id] == t.docs[id]
  {
    if ids != [] {
      DeletedDocs(t, ids[..|ids| - 1], id);
    }
  }

  lemma StepTracked(r: Run, s: Step)
    requires Tracked(r) && Agrees(r.t) && Enabled(r, s)
    ensures Tracked(Next(r, s))
  {
    var r' := Next(r, s);
    if s.Write? {
      StoredAgrees(r.t, r.jobs[s.id].hash, s.texts);
    } else if s.Point? {
      assert Unattached(r, s.id);
    }
    forall id | id in r'.t.docs ensures r'.t.docs[id].hash != Some("") {
      if s.Delete? {
        DeletedDocs(r.t, s.ids, id);
      }
    }
    forall id | id in r'.jobs ensures Unattached(r', id) {
      if id in r.jobs {
        assert Unattached(r, id);
      }
      if s.Delete? {
        DeletedDocs(r.t, s.ids, id);
      }
    }
  }

  // Every count is right after a step just when it was not an attach of a
  // document or a content that had gone in the meantime (both gone is harmless).
  predicate Sound(r: Run, s: Step)
    requires Enabled(r, s)
  {
    s.Point? ==> (s.id in r.t.docs <==> r.jobs[s.id].hash in r.t.contents)
  }

  lemma StepExact(r: Run, s: Step)
    requires Exact(r.t) && Agrees(r.t) && Tracked(r) && Enabled(r, s)
    ensures Exact(Next(r, s).t) <==> Sound(r, s)
  {
    match s
    case Create(id, hash) => SamePointing(r.t, Next(r, s).t);
    case Check(_) =>
    case Write(id, texts) => StoredExact(r.t, r.jobs[id].hash, texts);
    case Point(id) =>
      assert Unattached(r, id);
      AttachExact(r.t, id, r.jobs[id].hash);
    case Fail(id, _) => SamePointing(r.t, Next(r, s).t);
    case Delete(ids) => DeletedExact(r.t, ids);
  }

  lemma SamePointing(t: Tables, t': Tables)
    requires Exact(t) && t'.contents == t.contents
    requires forall id | id in t'.docs && t'.docs[id].hash.Some? :: id in t.docs && t.docs[id].hash == t'.docs[id].hash
    requires forall id | id in t.docs && t.docs[id].hash.Some? :: id in t'.docs && t.docs[id].hash == t'.docs[id].hash
    ensures Exact(t')
  {
    forall h ensures Counted(t', h) {
      assert Counted(t, h);
      assert Pointing(t', h) == Pointing(t, h);
    }
  }

  // The counts are right at the end of a run that made no unsound attach.
  ghost predicate AllSound(r: Run, steps: seq<Step>)
    decreases |steps|
  {
    steps == [] || (Enabled(r, steps[0]) && Sound(r, steps[0]) && AllSound(Next(r, steps[0]), steps[1..]))
  }

  lemma {:induction false} RunExact(r: Run, steps: seq<Step>, last: Run)
    requires Exact(r.t) && Agrees(r.t) && Tracked(r) && Reaches(r, steps, last) && AllSound(r, steps)
    ensures Exact(last.t)
    decreases |steps|
  {
    if steps != [] {
      StepExact(r, steps[0]);
      StepAgrees(r, steps[0]);
      StepTracked(r, steps[0]);
      RunExact(Next(r, steps[0]), steps[1..], last);
    }
  }

  // ----- what keeps every attach sound -----

  // No delete between an ingest's content check and its attach, and the document
  // is still there at the attach.
  ghost predicate Quiet(r: Run, s: Step) {
    match s
    case Delete(_) => forall id | id in r.jobs :: r.jobs[id].phase != Found
    case Point(id) => id in r.t.docs
    case _ => true
  }

  ghost predicate AllQuiet(r: Run, steps: seq<Step>)
    decreases |steps|
  {
    steps == [] || (Enabled(r, steps[0]) && Quiet(r, steps[0]) && AllQuiet(Next(r, steps[0]), steps[1..]))
  }

  ghost predicate FoundIsThere(r: Run) {
    forall id | In(r, id, Found) :: r.jobs[id].hash in r.t.contents
  }

  lemma StoredIsThere(t: Tables, h: Hash, texts: seq<string>)
    requires Agrees(t)
    ensures forall g | g in t.contents || g == h :: g in Stored(t, h, texts).contents
  {
    if h !in t.contents {
      assert Owned(t, h);
      InsertedAllKeeps(t.(contents := t.contents[h := Content(0, |texts|)]), h, texts);
    }
  }

  lemma StepFound(r: Run, s: Step)
    requires FoundIsThere(r) && Agrees(r.t) && Enabled(r, s) && Quiet(r, s)
    ensures FoundIsThere(Next(r, s))
  {
    if s.Write? {
      StoredIsThere(r.t, r.jobs[s.id].hash, s.texts);
    }
    var r' := Next(r, s);
    forall id | In(r', id, Found) ensures r'.jobs[id].hash in r'.t.contents {
      assert In(r, id, Found) ==> r.jobs[id].hash in r.t.contents;
    }
  }

  lemma {:induction false} QuietIsSound(r: Run, steps: seq<Step>)
    requires FoundIsThere(r) && Agrees(r.t) && AllQuiet(r, steps)
    ensures AllSound(r, steps)
    decreases |steps|
  {
    if steps != [] {
      StepFound(r, steps[0]);
      StepAgrees(r, steps[0]);
      QuietIsSound(Next(r, steps[0]), steps[1..]);
    }
  }

  const EMPTY := Run(Tables(map[], map[], [], multiset{}), map[])

  // From an empty store, whatever the order of the jobs: every count is the number
  // of documents pointing at the content.
  lemma QuietRunIsExact(steps: seq<Step>, last: Run)
    requires Reaches(EMPTY, steps, last) && AllQuiet(EMPTY, steps)
    ensures Exact(last.t) && Agrees(last.t)
  {
    QuietIsSound(EMPTY, steps);
    RunExact(EMPTY, steps, last);
    RunAgrees(EMPTY, steps, last);
  }

  // ----- why the conditions are needed -----

  // A delete of the last document between the check and the attach leaves a
  // document that says it is ready and has nothing behind it.
  lemma DeleteAfterCheckLosesContent(t: Tables, id: Id, other: Id, h: Hash)
    requires Exact(t) && Agrees(t) && NoEmptyHash(t) && h in t.contents && h != ""
    requires Pointing(t, h) == {other} && id != other && id in t.docs && t.docs[id].hash.None?
    ensures var t' := Attached(Deleted(t, [other]), id, h);
            id in t'.docs && t'.docs[id] == Doc(Some(h), Ready) && h !in t'.contents && Of(t'.rows, h) == []
  {
    assert Counted(t, h) && other in Pointing(t, h);
    var u := Deleted(t, [other]);
    assert Deleted(t, []) == t;
    assert u == DeletedOne(t, other);
    DeletedAgrees(t, [other]);
    assert Owned(u, h);
    ReleasedPoints(t, other, h);
  }

  // A document deleted before its attach leaves a count one too high, and then no
  // later deletes ever free the content.
  lemma DeleteBeforeAttachLeaks(t: Tables, id: Id, h: Hash, later: seq<Id>)
    requires Exact(t) && h in t.contents && id in t.docs && t.docs[id].hash.None?
    ensures h in Deleted(Attached(Deleted(t, [id]), id, h), later).contents
  {
    assert Counted(t, h);
    assert Deleted(t, []) == t;
    var u := Deleted(t, [id]);
    assert u == DeletedOne(t, id);
    ReleasedPoints(t, id, h);
    assert Pointing(u, h) == Pointing(t, h);
    var t' := Attached(u, id, h);
    assert Pointing(t', h) == Pointing(u, h);
    LeakIsForever(t', later, h);
  }
}

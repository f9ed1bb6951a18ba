// Access-log ingestion (app/analytics.py): overlapping windows of the proxy's log
// are folded into per-app tables, with a cursor that keeps any line from being
// counted twice.

module Ingest {
  import opened Numbers
  import opened Tables
  import opened Text

  // A request line of a hosted app. `seen` is None for a stamp that will not
  // parse as a time.
  datatype Rec = Rec(app: string, visitor: string, day: int, ua: string, marker: string, router: string,
                     status: Option<int>, dur: Option<real>, seen: Option<int>)

  // A log line. Stamps are compared as text; `stamp` is the place of the line's
  // stamp in that order, and 0 stands for a line without one.
  datatype Line = Line(stamp: nat, rec: Option<Rec>)

  predicate LineOk(l: Line) {
    l.rec.Some? ==> l.stamp > 0
  }

  const BACKEND_TOKEN := "1"

  // The static host's own forward rather than a client's request.
  predicate InternalLeg(r: Rec, fronted: set<string>) {
    r.marker == BACKEND_TOKEN || (r.router != "" && r.app in fronted && r.router != "fe-" + r.app)
  }

  const LATENCY_EDGES: seq<real> := [5.0, 10.0, 25.0, 50.0, 100.0, 250.0, 500.0, 1000.0, 2500.0, 5000.0, 10000.0]

  // The first bucket whose edge the duration does not exceed.
  function BucketFrom(dur: real, i: nat): (b: nat)
    requires i <= |LATENCY_EDGES|
    ensures i <= b <= |LATENCY_EDGES|
    ensures b < |LATENCY_EDGES| ==> dur <= LATENCY_EDGES[b]
    ensures forall j | i <= j < b :: LATENCY_EDGES[j] < dur
    decreases |LATENCY_EDGES| - i
  {
    if i == |LATENCY_EDGES| || dur <= LATENCY_EDGES[i] then i else BucketFrom(dur, i + 1)
  }

  function Bucket(dur: real): nat {
    BucketFrom(dur, 0)
  }

  // A counted request, with the time it counts as seen at.
  datatype Entry = Entry(rec: Rec, seen: int)

  predicate Counts(l: Line, cursor: nat, fronted: set<string>) {
    l.rec.Some? && l.stamp > cursor && !InternalLeg(l.rec.value, fronted)
  }

  // What one pass counts, in order.
  function Fresh(cursor: nat, window: seq<Line>, fronted: set<string>, now: int): seq<Entry> {
    if window == [] then []
    else
      var l := window[|window| - 1];
      Fresh(cursor, window[..|window| - 1], fronted, now)
      + if Counts(l, cursor, fronted) then [Entry(l.rec.value, SeenAt(l.rec.value, now))] else []
  }

  function SeenAt(r: Rec, now: int): int {
    if r.seen.Some? then r.seen.value else now
  }

  function Max(a: nat, b: nat): nat {
    if a > b then a else b
  }

  // How far a window reaches: its newest stamp of any line.
  function Horizon(cursor: nat, window: seq<Line>): nat {
    if window == [] then cursor else Max(Horizon(cursor, window[..|window| - 1]), window[|window| - 1].stamp)
  }

  // ----- the tables -----

  type VisitKey = (string, string, int)
  type DayKey = (string, int)
  type LatencyKey = (string, int, nat)
  type AgentKey = (string, int, string)

  function Column<K, V>(of: Entry -> seq<(K, V)>, es: seq<Entry>): seq<(K, V)> {
    if es == [] then [] else Column(of, es[..|es| - 1]) + of(es[|es| - 1])
  }

  function Visit(): Entry -> seq<(VisitKey, int)> {
    (e: Entry) => [((e.rec.app, e.rec.visitor, e.rec.day), 1)]
  }

  function First(): Entry -> seq<((string, string), int)> {
    (e: Entry) => [((e.rec.app, e.rec.visitor), e.rec.day)]
  }

  function Requests(): Entry -> seq<(DayKey, int)> {
    (e: Entry) => [((e.rec.app, e.rec.day), 1)]
  }

  predicate ClientError(r: Rec) {
    r.status.Some? && 400 <= r.status.value < 500
  }

  predicate ServerError(r: Rec) {
    r.status.Some? && r.status.value >= 500
  }

  function ClientErrors(): Entry -> seq<(DayKey, int)> {
    (e: Entry) => [((e.rec.app, e.rec.day), if ClientError(e.rec) then 1 else 0)]
  }

  function ServerErrors(): Entry -> seq<(DayKey, int)> {
    (e: Entry) => [((e.rec.app, e.rec.day), if ServerError(e.rec) then 1 else 0)]
  }

  function Millis(): Entry -> seq<(DayKey, real)> {
    (e: Entry) => [((e.rec.app, e.rec.day), if e.rec.dur.Some? then e.rec.dur.value else 0.0)]
  }

  function Latency(): Entry -> seq<(LatencyKey, int)> {
    (e: Entry) => if e.rec.dur.Some? then [((e.rec.app, e.rec.day, Bucket(e.rec.dur.value)), 1)] else []
  }

  function Agents(): Entry -> seq<(AgentKey, int)> {
    (e: Entry) => [((e.rec.app, e.rec.day, e.rec.ua), 1)]
  }

  function LastSeen(): Entry -> seq<(string, int)> {
    (e: Entry) => [(e.rec.app, e.seen)]
  }

  function Least(): (int, int) -> int {
    (x: int, y: int) => if y < x then y else x
  }

  function Greatest(): (int, int) -> int {
    (x: int, y: int) => if y > x then y else x
  }

  function Add(): (real, real) -> real {
    (x: real, y: real) => x + y
  }

  function AddInt(): (int, int) -> int {
    (x: int, y: int) => x + y
  }

  // One table each, all derived from the same requests.
  datatype Batch = Batch(visits: map<VisitKey, int>, first: map<(string, string), int>,
                         requests: map<DayKey, int>, errClient: map<DayKey, int>, errServer: map<DayKey, int>,
                         latency: map<LatencyKey, int>, agents: map<AgentKey, int>, last: map<string, int>)

  const EMPTY := Batch(map[], map[], map[], map[], map[], map[], map[], map[])

  function TablesOf(es: seq<Entry>): Batch {
    Batch(Fold(Column(Visit(), es), Plus()), Fold(Column(First(), es), Least()),
          Fold(Column(Requests(), es), Plus()), Fold(Column(ClientErrors(), es), Plus()),
          Fold(Column(ServerErrors(), es), Plus()), Fold(Column(Latency(), es), Plus()),
          Fold(Column(Agents(), es), Plus()), Fold(Column(LastSeen(), es), Greatest()))
  }

  function MillisOf(es: seq<Entry>): map<DayKey, real> {
    Fold(Column(Millis(), es), Add())
  }

  lemma {:induction false} ColumnConcat<K, V>(of: Entry -> seq<(K, V)>, a: seq<Entry>, b: seq<Entry>)
    ensures Column(of, a + b) == Column(of, a) + Column(of, b)
  {
    if b == [] {
      assert a + b == a;
    } else {
      assert (a + b)[..|a + b| - 1] == a + b[..|b| - 1];
      ColumnConcat(of, a, b[..|b| - 1]);
    }
  }

  // Merging a batch's table is appending the batch's requests.
  lemma MergeColumn<K, V(!new)>(of: Entry -> seq<(K, V)>, a: seq<Entry>, b: seq<Entry>, op: (V, V) -> V)
    requires Associative(op)
    ensures Merge(Fold(Column(of, a), op), Fold(Column(of, b), op), op) == Fold(Column(of, a + b), op)
  {
    ColumnConcat(of, a, b);
    MergeIsFold(Column(of, a), Column(of, b), op);
  }

  lemma OneMore<K, V>(of: Entry -> seq<(K, V)>, es: seq<Entry>, e: Entry, op: (V, V) -> V)
    ensures of(e) == [] ==> Fold(Column(of, es + [e]), op) == Fold(Column(of, es), op)
    ensures |of(e)| == 1 ==> Fold(Column(of, es + [e]), op) == Put(Fold(Column(of, es), op), of(e)[0].0, of(e)[0].1, op)
  {
    assert (es + [e])[..|es|] == es;
    if of(e) == [] {
      assert Column(of, es) + of(e) == Column(of, es);
    } else if |of(e)| == 1 {
      assert of(e) == [(of(e)[0].0, of(e)[0].1)];
    }
  }

  // Fold one request into the in-memory tables of a pass.
  method AddEntry(t: Batch, millis: map<DayKey, real>, e: Entry, ghost es: seq<Entry>)
    returns (t': Batch, millis': map<DayKey, real>)
    requires t == TablesOf(es) && millis == MillisOf(es)
    ensures t' == TablesOf(es + [e]) && millis' == MillisOf(es + [e])
  {
    var r := e.rec;
    OneMore(Visit(), es, e, Plus());
    OneMore(First(), es, e, Least());
    OneMore(Requests(), es, e, Plus());
    OneMore(ClientErrors(), es, e, Plus());
    OneMore(ServerErrors(), es, e, Plus());
    OneMore(Latency(), es, e, Plus());
    OneMore(Agents(), es, e, Plus());
    OneMore(LastSeen(), es, e, Greatest());
    OneMore(Millis(), es, e, Add());
    var day := (r.app, r.day);
    t' := t.(visits := Put(t.visits, (r.app, r.visitor, r.day), 1, Plus()),
             first := Put(t.first, (r.app, r.visitor), r.day, Least()),
             requests := Put(t.requests, day, 1, Plus()),
             errClient := Put(t.errClient, day, if ClientError(r) then 1 else 0, Plus()),
             errServer := Put(t.errServer, day, if ServerError(r) then 1 else 0, Plus()),
             agents := Put(t.agents, (r.app, r.day, r.ua), 1, Plus()),
             last := Put(t.last, r.app, e.seen, Greatest()));
    millis' := Put(millis, day, if r.dur.Some? then r.dur.value else 0.0, Add());
    if r.dur.Some? {
      t' := t'.(latency := Put(t.latency, (r.app, r.day, Bucket(r.dur.value)), 1, Plus()));
    }
  }

  class Rollups {
    var cursor: nat
    var tables: Batch
    var millis: map<DayKey, int>
    // Every request counted so far, and how many passes counted some.
    ghost var ledger: seq<Entry>
    ghost var passes: nat

    // The tables are exactly the tables of the requests counted; summed
    // milliseconds are off by at most half a millisecond per pass.
    ghost predicate Valid()
      reads this
    {
      tables == TablesOf(ledger) && MillisOk(millis, ledger, passes)
    }

    constructor ()
      ensures Valid() && cursor == 0 && ledger == [] && passes == 0
    {
      cursor, tables, millis, ledger, passes := 0, EMPTY, map[], [], 0;
    }

    // Fold the lines newer than the cursor into the tables and move the cursor to
    // the furthest line read.
    method IngestOnce(window: seq<Line>, fronted: set<string>, now: int) returns (counted: nat)
      requires Valid()
      modifies this
      ensures Valid() && passes <= old(passes) + 1
      ensures ledger == old(ledger) + Fresh(old(cursor), window, fronted, now)
      ensures cursor == Horizon(old(cursor), window)
      ensures counted == |Fresh(old(cursor), window, fronted, now)|
    {
      ghost var batch := Fresh(cursor, window, fronted, now);
      var t, ms, horizon;
      t, ms, horizon, counted := Collect(cursor, window, fronted, now);
      if counted > 0 {
        Upsert(t, ms, batch);
      } else {
        assert ledger + batch == ledger;
      }
      cursor := horizon;
    }

    // Add a pass's sums to the stored tables.
    method Upsert(t: Batch, ms: map<DayKey, real>, ghost batch: seq<Entry>)
      requires Valid() && t == TablesOf(batch) && ms == MillisOf(batch)
      modifies this
      ensures Valid() && ledger == old(ledger) + batch && passes == old(passes) + 1 && cursor == old(cursor)
    {
      ghost var whole := ledger + batch;
      var sums := AddTables(tables, t, ledger, batch);
      var added := AddMillis(millis, ms, ledger, batch, passes);
      tables, millis, ledger, passes := sums, added, whole, passes + 1;
    }
  }

  method AddTables(a: Batch, b: Batch, ghost xs: seq<Entry>, ghost ys: seq<Entry>) returns (sum: Batch)
    requires a == TablesOf(xs) && b == TablesOf(ys)
    ensures sum == TablesOf(xs + ys)
  {
    MergeTablesIs(xs, ys);
    sum := MergeTables(a, b);
  }

  method AddMillis(a: map<DayKey, int>, b: map<DayKey, real>, ghost xs: seq<Entry>, ghost ys: seq<Entry>, ghost n: nat)
    returns (sum: map<DayKey, int>)
    requires MillisOk(a, xs, n) && b == MillisOf(ys)
    ensures MillisOk(sum, xs + ys, n + 1)
  {
    MillisNear(a, xs, ys, n);
    sum := Merge(a, RoundAll(b), AddInt());
  }

  // The in-memory half of a pass: what its fresh lines add up to.
  method Collect(cursor: nat, window: seq<Line>, fronted: set<string>, now: int)
    returns (t: Batch, ms: map<DayKey, real>, horizon: nat, counted: nat)
    ensures t == TablesOf(Fresh(cursor, window, fronted, now))
    ensures ms == MillisOf(Fresh(cursor, window, fronted, now))
    ensures counted == |Fresh(cursor, window, fronted, now)| && horizon == Horizon(cursor, window)
  {
    t, ms, horizon, counted := EMPTY, map[], cursor, 0;
    for n := 0 to |window|
      invariant t == TablesOf(Fresh(cursor, window[..n], fronted, now))
      invariant ms == MillisOf(Fresh(cursor, window[..n], fronted, now))
      invariant counted == |Fresh(cursor, window[..n], fronted, now)| && horizon == Horizon(cursor, window[..n])
    {
      var l := window[n];
      ghost var batch := Fresh(cursor, window[..n], fronted, now);
      FreshStep(cursor, window, n, fronted, now);
      if l.stamp > horizon {
        horizon := l.stamp;
      }
      if l.rec.Some? && l.stamp > cursor && !InternalLeg(l.rec.value, fronted) {
        counted := counted + 1;
        t, ms := AddEntry(t, ms, Entry(l.rec.value, SeenAt(l.rec.value, now)), batch);
      }
    }
    assert window[..|window|] == window;
  }

  lemma FreshStep(cursor: nat, window: seq<Line>, n: nat, fronted: set<string>, now: int)
    requires n < |window|
    ensures Fresh(cursor, window[..n + 1], fronted, now) ==
            if Counts(window[n], cursor, fronted)
            then Fresh(cursor, window[..n], fronted, now) + [Entry(window[n].rec.value, SeenAt(window[n].rec.value, now))]
            else Fresh(cursor, window[..n], fronted, now)
    ensures Horizon(cursor, window[..n + 1]) == Max(Horizon(cursor, window[..n]), window[n].stamp)
  {
    assert window[..n + 1][..n] == window[..n];
    var sofar := Fresh(cursor, window[..n], fronted, now);
    assert sofar + [] == sofar;
  }

  // ----- which requests are counted -----

  // Newer than the cursor and not the static host's own forward, by what the line
  // says: no marker on it, and, for an app the static host fronts, logged under the
  // static host's router for it or under none.
  function ClientLine(cursor: nat, fronted: set<string>): Line -> bool {
    (l: Line) =>
      && l.rec.Some? && l.stamp > cursor && l.rec.value.marker != "1"
      && (l.rec.value.router == "" || l.rec.value.app !in fronted || l.rec.value.router == "fe-" + l.rec.value.app)
  }

  // A pass counts exactly those lines, in order, each as seen at its own time, or at
  // the time of the pass when it has none that can be read.
  lemma {:induction false} FreshExactly(cursor: nat, window: seq<Line>, fronted: set<string>, now: int)
    ensures var lines, es := Filter(window, ClientLine(cursor, fronted)), Fresh(cursor, window, fronted, now);
            && |es| == |lines|
            && forall i | 0 <= i < |lines| ::
                 && ClientLine(cursor, fronted)(lines[i]) && es[i].rec == lines[i].rec.value
                 && es[i].seen == if es[i].rec.seen.Some? then es[i].rec.seen.value else now
  {
    if window != [] {
      FreshExactly(cursor, window[..|window| - 1], fronted, now);
    }
  }

  lemma {:induction false} FilterOne<T>(s: seq<T>, keep: T -> bool, o: nat)
    requires o < |s| && keep(s[o]) && forall i | 0 <= i < |s| && i != o :: !keep(s[i])
    ensures Filter(s, keep) == [s[o]]
  {
    var n := |s| - 1;
    if o < n {
      FilterOne(s[..n], keep, o);
      assert [s[o]] + [] == [s[o]];
    } else {
      FilterNone(s[..n], keep);
    }
  }

  lemma {:induction false} FilterNone<T>(s: seq<T>, keep: T -> bool)
    requires forall i | 0 <= i < |s| :: !keep(s[i])
    ensures Filter(s, keep) == []
  {
    if s != [] {
      FilterNone(s[..|s| - 1], keep);
    }
  }

  // A forward the log gives away: it carries the marker, or was logged under a router
  // of the fronted app that is not the static host's.
  predicate CaughtForward(r: Rec, fronted: set<string>) {
    r.marker == "1" || (r.app in fronted && r.router != "" && r.router != "fe-" + r.app)
  }

  // One client request of a fronted app, however often the static host forwarded it
  // while waking the app, counts once, as the line the client's own leg left.
  lemma ExchangeCountsOnce(cursor: nat, window: seq<Line>, o: nat, fronted: set<string>, now: int)
    requires o < |window| && window[o].rec.Some? && window[o].stamp > cursor
    requires window[o].rec.value.marker == "" && window[o].rec.value.router == "fe-" + window[o].rec.value.app
    requires forall i | 0 <= i < |window| && i != o && window[i].rec.Some? && window[i].stamp > cursor ::
               CaughtForward(window[i].rec.value, fronted)
    ensures var es := Fresh(cursor, window, fronted, now);
            |es| == 1 && es[0].rec == window[o].rec.value
  {
    FreshExactly(cursor, window, fronted, now);
    FilterOne(window, ClientLine(cursor, fronted), o);
  }

  // ----- what each table holds -----

  ghost predicate Any(es: seq<Entry>, p: Entry -> bool) {
    CountWhere(es, p) > 0
  }

  function At<K, V>(m: map<K, V>, k: K, none: V): V {
    if k in m then m[k] else none
  }

  // A column of ones and zeros under one key: the row is there when an entry has the
  // key, and is the number of those with a one.
  lemma {:induction false} CountedAt<K(!new)>(of: Entry -> seq<(K, int)>, es: seq<Entry>, k: K, p: Entry -> bool, c: Entry -> bool)
    requires forall e :: Marks(of, k, p, c, e)
    ensures k in Fold(Column(of, es), Plus()) <==> Any(es, p)
    ensures At(Fold(Column(of, es), Plus()), k, 0) == CountWhere(es, c)
  {
    if es != [] {
      var before, e := es[..|es| - 1], es[|es| - 1];
      assert es == before + [e];
      CountedAt(of, before, k, p, c);
      OneMore(of, before, e, Plus());
      assert Marks(of, k, p, c, e);
    }
  }

  // The column's item for `e`, if any, is under the key just when `p` holds, and is
  // then a one just when `c` does.
  ghost predicate Marks<K>(of: Entry -> seq<(K, int)>, k: K, p: Entry -> bool, c: Entry -> bool, e: Entry) {
    && |of(e)| <= 1 && (p(e) <==> of(e) != [] && of(e)[0].0 == k)
    && (p(e) ==> of(e)[0].1 == if c(e) then 1 else 0) && (c(e) ==> p(e))
  }

  function Mine(app: string, day: int): Entry -> bool {
    (e: Entry) => e.rec.app == app && e.rec.day == day
  }

  function MineWith(app: string, day: int, least: int, most: Option<int>): Entry -> bool {
    (e: Entry) => e.rec.app == app && e.rec.day == day && e.rec.status.Some?
                  && least <= e.rec.status.value && (most.Some? ==> e.rec.status.value <= most.value)
  }

  // The request and error counts of an app on a day, by the statuses alone.
  lemma RequestsExactly(es: seq<Entry>, app: string, day: int)
    ensures var (t, k) := (TablesOf(es), (app, day));
            && (k in t.requests <==> Any(es, Mine(app, day)))
            && t.errClient.Keys == t.errServer.Keys == t.requests.Keys
            && At(t.requests, k, 0) == CountWhere(es, Mine(app, day))
            && At(t.errClient, k, 0) == CountWhere(es, MineWith(app, day, 400, Some(499)))
            && At(t.errServer, k, 0) == CountWhere(es, MineWith(app, day, 500, None))
  {
    CountedAt(Requests(), es, (app, day), Mine(app, day), Mine(app, day));
    CountedAt(ClientErrors(), es, (app, day), Mine(app, day), MineWith(app, day, 400, Some(499)));
    CountedAt(ServerErrors(), es, (app, day), Mine(app, day), MineWith(app, day, 500, None));
    SameKeys(es);
  }

  lemma {:induction false} SameKeys(es: seq<Entry>)
    ensures TablesOf(es).errClient.Keys == TablesOf(es).errServer.Keys == TablesOf(es).requests.Keys
  {
    if es != [] {
      var before, e := es[..|es| - 1], es[|es| - 1];
      assert es == before + [e];
      SameKeys(before);
      OneMore(Requests(), before, e, Plus());
      OneMore(ClientErrors(), before, e, Plus());
      OneMore(ServerErrors(), before, e, Plus());
    }
  }

  function ByVisitor(app: string, day: int, who: string): Entry -> bool {
    (e: Entry) => e.rec.app == app && e.rec.day == day && e.rec.visitor == who
  }

  function ByAgent(app: string, day: int, ua: string): Entry -> bool {
    (e: Entry) => e.rec.app == app && e.rec.day == day && e.rec.ua == ua
  }

  // The hits of a visitor, and of an agent, on an app and day.
  lemma HitsExactly(es: seq<Entry>, app: string, day: int, who: string)
    ensures var (t, v, a) := (TablesOf(es), (app, who, day), (app, day, who));
            && (v in t.visits <==> Any(es, ByVisitor(app, day, who)))
            && At(t.visits, v, 0) == CountWhere(es, ByVisitor(app, day, who))
            && (a in t.agents <==> Any(es, ByAgent(app, day, who)))
            && At(t.agents, a, 0) == CountWhere(es, ByAgent(app, day, who))
  {
    CountedAt(Visit(), es, (app, who, day), ByVisitor(app, day, who), ByVisitor(app, day, who));
    CountedAt(Agents(), es, (app, day, who), ByAgent(app, day, who), ByAgent(app, day, who));
  }

  // The days of a visitor on an app, and when an app was asked for something.
  function DaysOf(es: seq<Entry>, app: string, visitor: string): seq<int> {
    if es == [] then []
    else
      var e := es[|es| - 1];
      DaysOf(es[..|es| - 1], app, visitor) + if e.rec.app == app && e.rec.visitor == visitor then [e.rec.day] else []
  }

  function TimesOf(es: seq<Entry>, app: string): seq<int> {
    if es == [] then []
    else
      var e := es[|es| - 1];
      TimesOf(es[..|es| - 1], app) + if e.rec.app == app then [e.seen] else []
  }

  lemma DaysNext(es: seq<Entry>, app: string, visitor: string)
    requires es != []
    ensures var (days, e) := (DaysOf(es[..|es| - 1], app, visitor), es[|es| - 1]);
            DaysOf(es, app, visitor) == if e.rec.app == app && e.rec.visitor == visitor then days + [e.rec.day] else days
  {}

  lemma TimesNext(es: seq<Entry>, app: string)
    requires es != []
    ensures var (times, e) := (TimesOf(es[..|es| - 1], app), es[|es| - 1]);
            TimesOf(es, app) == if e.rec.app == app then times + [e.seen] else times
  {}

  predicate IsLeast(x: int, xs: seq<int>) {
    x in xs && forall i | 0 <= i < |xs| :: x <= xs[i]
  }

  predicate IsGreatest(x: int, xs: seq<int>) {
    x in xs && forall i | 0 <= i < |xs| :: xs[i] <= x
  }

  lemma LeastNext(x: int, xs: seq<int>, y: int)
    requires IsLeast(x, xs)
    ensures IsLeast(if y < x then y else x, xs + [y])
  {}

  lemma GreatestNext(x: int, xs: seq<int>, y: int)
    requires IsGreatest(x, xs)
    ensures IsGreatest(if y > x then y else x, xs + [y])
  {}

  lemma {:induction false} LeastAt(es: seq<Entry>, app: string, visitor: string)
    ensures var (first, k, days) := (Fold(Column(First(), es), Least()), (app, visitor), DaysOf(es, app, visitor));
            (k in first <==> days != []) && (k in first ==> IsLeast(first[k], days))
  {
    if es != [] {
      var before, e := es[..|es| - 1], es[|es| - 1];
      var first, days := Fold(Column(First(), before), Least()), DaysOf(before, app, visitor);
      assert es == before + [e];
      LeastAt(before, app, visitor);
      OneMore(First(), before, e, Least());
      DaysNext(es, app, visitor);
      if (app, visitor) in first {
        LeastNext(first[(app, visitor)], days, e.rec.day);
      }
    }
  }

  lemma {:induction false} GreatestAt(es: seq<Entry>, app: string)
    ensures var (last, times) := (Fold(Column(LastSeen(), es), Greatest()), TimesOf(es, app));
            (app in last <==> times != []) && (app in last ==> IsGreatest(last[app], times))
  {
    if es != [] {
      var before, e := es[..|es| - 1], es[|es| - 1];
      var last, times := Fold(Column(LastSeen(), before), Greatest()), TimesOf(before, app);
      assert es == before + [e];
      GreatestAt(before, app);
      OneMore(LastSeen(), before, e, Greatest());
      TimesNext(es, app);
      if app in last {
        GreatestNext(last[app], times, e.seen);
      }
    }
  }

  // A visitor's first day on an app is the least of its days there, and an app was
  // last seen at the latest of its requests.
  lemma FirstAndLast(es: seq<Entry>, app: string, visitor: string)
    ensures var (first, k, days) := (TablesOf(es).first, (app, visitor), DaysOf(es, app, visitor));
            (k in first <==> days != []) && (k in first ==> IsLeast(first[k], days))
    ensures var (last, times) := (TablesOf(es).last, TimesOf(es, app));
            (app in last <==> times != []) && (app in last ==> IsGreatest(last[app], times))
  {
    LeastAt(es, app, visitor);
    GreatestAt(es, app);
  }

  function DurationSum(es: seq<Entry>, app: string, day: int): real {
    if es == [] then 0.0
    else
      var e := es[|es| - 1];
      DurationSum(es[..|es| - 1], app, day)
      + if e.rec.app == app && e.rec.day == day && e.rec.dur.Some? then e.rec.dur.value else 0.0
  }

  // An app's milliseconds on a day, before rounding, are the durations that were
  // logged added up.
  lemma {:induction false} MillisExactly(es: seq<Entry>, app: string, day: int)
    ensures (if (app, day) in MillisOf(es) then MillisOf(es)[(app, day)] else 0.0) == DurationSum(es, app, day)
  {
    if es != [] {
      var before, e := es[..|es| - 1], es[|es| - 1];
      assert es == before + [e];
      MillisExactly(before, app, day);
      OneMore(Millis(), before, e, Add());
    }
  }

  // The upserts of one pass.
  function MergeTables(a: Batch, b: Batch): Batch {
    Batch(Merge(a.visits, b.visits, Plus()), Merge(a.first, b.first, Least()),
          Merge(a.requests, b.requests, Plus()), Merge(a.errClient, b.errClient, Plus()),
          Merge(a.errServer, b.errServer, Plus()), Merge(a.latency, b.latency, Plus()),
          Merge(a.agents, b.agents, Plus()), Merge(a.last, b.last, Greatest()))
  }

  lemma MergeTablesIs(a: seq<Entry>, b: seq<Entry>)
    ensures MergeTables(TablesOf(a), TablesOf(b)) == TablesOf(a + b)
  {
    MergeColumn(Visit(), a, b, Plus());
    MergeColumn(First(), a, b, Least());
    MergeColumn(Requests(), a, b, Plus());
    MergeColumn(ClientErrors(), a, b, Plus());
    MergeColumn(ServerErrors(), a, b, Plus());
    MergeColumn(Latency(), a, b, Plus());
    MergeColumn(Agents(), a, b, Plus());
    MergeColumn(LastSeen(), a, b, Greatest());
  }

  ghost predicate MillisOk(millis: map<DayKey, int>, es: seq<Entry>, passes: nat) {
    && millis.Keys == MillisOf(es).Keys
    && forall k | k in millis :: Near(millis[k], MillisOf(es)[k], passes)
  }

  function RoundAll(m: map<DayKey, real>): map<DayKey, int> {
    map k | k in m :: Round(m[k])
  }

  lemma MillisNear(millis: map<DayKey, int>, a: seq<Entry>, b: seq<Entry>, passes: nat)
    requires MillisOk(millis, a, passes)
    ensures MillisOk(Merge(millis, RoundAll(MillisOf(b)), AddInt()), a + b, passes + 1)
  {
    MergeColumn(Millis(), a, b, Add());
    var x, y, z := MillisOf(a), MillisOf(b), MillisOf(a + b);
    var m := Merge(millis, RoundAll(y), AddInt());
    forall k | k in m ensures Near(m[k], z[k], passes + 1) {
      assert k in millis ==> Near(millis[k], x[k], passes);
    }
  }

  // Within half a millisecond for each rounding.
  ghost predicate Near(n: int, x: real, roundings: nat) {
    -(roundings as real) / 2.0 <= n as real - x <= roundings as real / 2.0
  }

  // ----- conservation -----

  ghost function CountWhere(es: seq<Entry>, p: Entry -> bool): nat {
    if es == [] then 0 else CountWhere(es[..|es| - 1], p) + if p(es[|es| - 1]) then 1 else 0
  }

  // A column that counts the entries satisfying `p` under keys satisfying `q`.
  lemma {:induction false} SumOfColumn<K(!new)>(of: Entry -> seq<(K, int)>, q: K -> bool, p: Entry -> bool, es: seq<Entry>)
    requires forall e :: |of(e)| <= 1
    requires forall e :: p(e) <==> of(e) != [] && q(of(e)[0].0)
    requires forall e | of(e) != [] :: of(e)[0].1 == 1
    ensures SumWhere(Fold(Column(of, es), Plus()), q) == CountWhere(es, p)
  {
    SumOfFold(Column(of, es), q);
    ItemsOfColumn(of, q, p, es);
  }

  lemma {:induction false} ItemsOfColumn<K(!new)>(of: Entry -> seq<(K, int)>, q: K -> bool, p: Entry -> bool, es: seq<Entry>)
    requires forall e :: |of(e)| <= 1
    requires forall e :: p(e) <==> of(e) != [] && q(of(e)[0].0)
    requires forall e | of(e) != [] :: of(e)[0].1 == 1
    ensures SumItems(Column(of, es), q) == CountWhere(es, p)
  {
    if es != [] {
      var before, e := es[..|es| - 1], es[|es| - 1];
      ItemsOfColumn(of, q, p, before);
      var col := Column(of, before);
      if of(e) == [] {
        assert col + of(e) == col;
      } else {
        assert (col + of(e))[..|col|] == col;
      }
    }
  }

  function Of(app: string, day: int): Entry -> bool {
    (e: Entry) => e.rec.app == app && e.rec.day == day
  }

  // Per app and day, requests, summed visitor hits and summed agent hits are the
  // same number, and latency counts are the requests that had a duration.
  lemma Conservation(es: seq<Entry>, app: string, day: int)
    ensures var t := TablesOf(es);
            var n := CountWhere(es, Of(app, day));
            && SumWhere(t.requests, (k: DayKey) => k == (app, day)) == n
            && SumWhere(t.visits, (k: VisitKey) => k.0 == app && k.2 == day) == n
            && SumWhere(t.agents, (k: AgentKey) => k.0 == app && k.1 == day) == n
            && SumWhere(t.latency, (k: LatencyKey) => k.0 == app && k.1 == day) ==
               CountWhere(es, (e: Entry) => e.rec.app == app && e.rec.day == day && e.rec.dur.Some?)
  {
    SumOfColumn(Requests(), (k: DayKey) => k == (app, day), Of(app, day), es);
    SumOfColumn(Visit(), (k: VisitKey) => k.0 == app && k.2 == day, Of(app, day), es);
    SumOfColumn(Agents(), (k: AgentKey) => k.0 == app && k.1 == day, Of(app, day), es);
    SumOfColumn(Latency(), (k: LatencyKey) => k.0 == app && k.1 == day,
                (e: Entry) => e.rec.app == app && e.rec.day == day && e.rec.dur.Some?, es);
  }

  // ----- whole runs -----

  // One pass: the lines it was handed, as places in the log, and the fronted apps
  // as it read them.
  datatype Pass = Pass(window: seq<nat>, fronted: set<string>)

  function Lines(log: seq<Line>, window: seq<nat>): seq<Line>
    requires forall j | 0 <= j < |window| :: window[j] < |log|
  {
    seq(|window|, j requires 0 <= j < |window| => log[window[j]])
  }

  predicate PassesOk(log: seq<Line>, passes: seq<Pass>) {
    forall n, j | 0 <= n < |passes| && 0 <= j < |passes[n].window| :: passes[n].window[j] < |log|
  }

  function CursorAfter(log: seq<Line>, passes: seq<Pass>): nat
    requires PassesOk(log, passes)
  {
    if passes == [] then 0
    else
      var p := passes[|passes| - 1];
      Horizon(CursorAfter(log, passes[..|passes| - 1]), Lines(log, p.window))
  }

  // The places in the log that the n-th pass counts.
  function CountedIn(log: seq<Line>, passes: seq<Pass>, n: nat): set<nat>
    requires PassesOk(log, passes) && n < |passes|
  {
    set i | i in passes[n].window && Counts(log[i], CursorAfter(log, passes[..n]), passes[n].fronted)
  }

  lemma {:induction false} HorizonReaches(cursor: nat, window: seq<Line>)
    ensures cursor <= Horizon(cursor, window)
    ensures forall l | l in window :: l.stamp <= Horizon(cursor, window)
  {
    if window != [] {
      HorizonReaches(cursor, window[..|window| - 1]);
      assert window == window[..|window| - 1] + [window[|window| - 1]];
    }
  }

  // The cursor never moves back.
  lemma {:induction false} CursorMonotone(log: seq<Line>, passes: seq<Pass>, m: nat, n: nat)
    requires PassesOk(log, passes) && m <= n <= |passes|
    ensures CursorAfter(log, passes[..m]) <= CursorAfter(log, passes[..n])
    decreases n
  {
    if m < n {
      CursorMonotone(log, passes, m, n - 1);
      assert passes[..n][..n - 1] == passes[..n - 1];
      HorizonReaches(CursorAfter(log, passes[..n - 1]), Lines(log, passes[n - 1].window));
    }
  }

  // Whatever windows the passes are handed, in whatever order, no line is counted
  // in two of them.
  lemma CountedAtMostOnce(log: seq<Line>, passes: seq<Pass>, m: nat, n: nat)
    requires PassesOk(log, passes) && m < n < |passes|
    ensures CountedIn(log, passes, m) !! CountedIn(log, passes, n)
  {
    CursorMonotone(log, passes, m + 1, n);
    assert passes[..m + 1][..m] == passes[..m];
    var w := Lines(log, passes[m].window);
    HorizonReaches(CursorAfter(log, passes[..m]), w);
    forall i | i in CountedIn(log, passes, m) ensures i !in CountedIn(log, passes, n) {
      var j :| 0 <= j < |passes[m].window| && passes[m].window[j] == i;
      assert w[j] == log[i] && w[j] in w;
    }
  }

  // ----- split invariance -----

  // Stamps grow strictly across the cut at `h`.
  predicate CleanCut(log: seq<Line>, h: nat) {
    forall i, j | 0 <= i < h <= j < |log| && log[j].stamp > 0 :: log[i].stamp < log[j].stamp
  }

  // How far the first passes have read.
  function Reach(cuts: seq<(nat, nat)>): nat {
    if cuts == [] then 0 else Max(Reach(cuts[..|cuts| - 1]), cuts[|cuts| - 1].1)
  }

  // Each window starts no later than where reading got to, so nothing is skipped.
  predicate NoGaps(cuts: seq<(nat, nat)>) {
    forall n | 0 <= n < |cuts| :: cuts[n].0 <= Reach(cuts[..n])
  }

  predicate CutsOk(log: seq<Line>, cuts: seq<(nat, nat)>) {
    forall n | 0 <= n < |cuts| :: cuts[n].0 <= cuts[n].1 <= |log|
  }

  // The cursor and the counted requests after a run over windows of the log.
  function Run(log: seq<Line>, cuts: seq<(nat, nat)>, clock: nat -> int, fronted: set<string>): (nat, seq<Entry>)
    requires CutsOk(log, cuts)
  {
    if cuts == [] then (0, [])
    else
      var n := |cuts| - 1;
      var (cursor, ledger) := Run(log, cuts[..n], clock, fronted);
      var window := log[cuts[n].0..cuts[n].1];
      (Horizon(cursor, window), ledger + Fresh(cursor, window, fronted, clock(n)))
  }

  // The requests behind counted entries, without the time each counts as seen at.
  function RecsOf(es: seq<Entry>): seq<Rec> {
    if es == [] then [] else RecsOf(es[..|es| - 1]) + [es[|es| - 1].rec]
  }

  lemma {:induction false} RecsConcat(a: seq<Entry>, b: seq<Entry>)
    ensures RecsOf(a + b) == RecsOf(a) + RecsOf(b)
  {
    if b == [] {
      assert a + b == a;
    } else {
      assert (a + b)[..|a + b| - 1] == a + b[..|b| - 1];
      RecsConcat(a, b[..|b| - 1]);
    }
  }

  lemma {:induction false} HorizonConcat(cursor: nat, a: seq<Line>, b: seq<Line>)
    ensures Horizon(cursor, a + b) == Horizon(Horizon(cursor, a), b)
  {
    if b == [] {
      assert a + b == a;
    } else {
      assert (a + b)[..|a + b| - 1] == a + b[..|b| - 1];
      HorizonConcat(cursor, a, b[..|b| - 1]);
    }
  }

  lemma {:induction false} FreshConcat(cursor: nat, a: seq<Line>, b: seq<Line>, fronted: set<string>, now: int)
    ensures Fresh(cursor, a + b, fronted, now) == Fresh(cursor, a, fronted, now) + Fresh(cursor, b, fronted, now)
  {
    if b == [] {
      assert a + b == a;
    } else {
      assert (a + b)[..|a + b| - 1] == a + b[..|b| - 1];
      FreshConcat(cursor, a, b[..|b| - 1], fronted, now);
    }
  }

  lemma {:induction false} NothingFresh(cursor: nat, window: seq<Line>, fronted: set<string>, now: int)
    requires forall l | l in window :: l.stamp <= cursor
    ensures Fresh(cursor, window, fronted, now) == [] && Horizon(cursor, window) == cursor
  {
    if window != [] {
      NothingFresh(cursor, window[..|window| - 1], fronted, now);
      assert window[|window| - 1] in window;
    }
  }

  // Lines past the cursor count the same whatever the cursor and the clock.
  lemma {:induction false} FreshAnyway(cursor: nat, window: seq<Line>, fronted: set<string>, now: int, now': int)
    requires forall i | 0 <= i < |window| :: LineOk(window[i]) && (window[i].stamp > 0 ==> window[i].stamp > cursor)
    ensures RecsOf(Fresh(cursor, window, fronted, now)) == RecsOf(Fresh(0, window, fronted, now'))
  {
    if window != [] {
      var n := |window| - 1;
      FreshAnyway(cursor, window[..n], fronted, now, now');
      assert Counts(window[n], cursor, fronted) == Counts(window[n], 0, fronted);
      if Counts(window[n], cursor, fronted) {
        var r := window[n].rec.value;
        RecsConcat(Fresh(cursor, window[..n], fronted, now), [Entry(r, SeenAt(r, now))]);
        RecsConcat(Fresh(0, window[..n], fronted, now'), [Entry(r, SeenAt(r, now'))]);
      } else {
        assert Fresh(cursor, window[..n], fronted, now) + [] == Fresh(cursor, window[..n], fronted, now);
        assert Fresh(0, window[..n], fronted, now') + [] == Fresh(0, window[..n], fronted, now');
      }
    }
  }

  predicate LinesOk(log: seq<Line>) {
    forall i | 0 <= i < |log| :: LineOk(log[i])
  }

  // Stamps grow strictly across the end of every window.
  predicate CleanCuts(log: seq<Line>, cuts: seq<(nat, nat)>) {
    forall n | 0 <= n < |cuts| :: CleanCut(log, cuts[n].1)
  }

  // Any passes over overlapping windows count exactly the requests one pass over
  // the whole stretch would have counted, and leave the same cursor.
  lemma {:induction false} SplitInvariant(log: seq<Line>, cuts: seq<(nat, nat)>, clock: nat -> int,
                                          fronted: set<string>, now: int)
    requires LinesOk(log) && CutsOk(log, cuts) && NoGaps(cuts) && CleanCuts(log, cuts)
    ensures Reach(cuts) <= |log| && CleanCut(log, Reach(cuts))
    ensures Run(log, cuts, clock, fronted).0 == Horizon(0, log[..Reach(cuts)])
    ensures RecsOf(Run(log, cuts, clock, fronted).1) == RecsOf(Fresh(0, log[..Reach(cuts)], fronted, now))
  {
    if cuts != [] {
      var n := |cuts| - 1;
      var before := cuts[..n];
      forall m | 0 <= m < |before| ensures before[m].0 <= Reach(before[..m]) {
        assert before[..m] == cuts[..m];
      }
      SplitInvariant(log, before, clock, fronted, now);
      assert CleanCut(log, cuts[n].1);
      OneMorePass(log, Reach(before), cuts[n].0, cuts[n].1, fronted, clock(n), now);
      RecsConcat(Run(log, before, clock, fronted).1,
                 Fresh(Horizon(0, log[..Reach(before)]), log[cuts[n].0..cuts[n].1], fronted, clock(n)));
    }
  }

  lemma OneMorePass(log: seq<Line>, h: nat, lo: nat, hi: nat, fronted: set<string>, now: int, now': int)
    requires lo <= h <= |log| && lo <= hi <= |log| && CleanCut(log, h) && LinesOk(log)
    ensures var cursor := Horizon(0, log[..h]);
            && Horizon(cursor, log[lo..hi]) == Horizon(0, log[..Max(h, hi)])
            && RecsOf(Fresh(0, log[..h], fronted, now')) + RecsOf(Fresh(cursor, log[lo..hi], fronted, now))
               == RecsOf(Fresh(0, log[..Max(h, hi)], fronted, now'))
  {
    if hi <= h {
      OldLines(log, h, lo, hi, fronted, now);
    } else {
      var added := log[h..hi];
      assert log[lo..hi] == log[lo..h] + added;
      OldLines(log, h, lo, h, fronted, now);
      TwoParts(Horizon(0, log[..h]), log[lo..h], added, fronted, now);
      NewLines(log, h, hi, fronted, now, now');
      assert log[..hi] == log[..h] + added;
      FreshConcat(0, log[..h], added, fronted, now');
      HorizonConcat(0, log[..h], added);
      RecsConcat(Fresh(0, log[..h], fronted, now'), Fresh(0, added, fronted, now'));
    }
  }

  // A window whose first part is old counts what its second part counts.
  lemma TwoParts(cursor: nat, a: seq<Line>, b: seq<Line>, fronted: set<string>, now: int)
    requires Fresh(cursor, a, fronted, now) == [] && Horizon(cursor, a) == cursor
    ensures Fresh(cursor, a + b, fronted, now) == Fresh(cursor, b, fronted, now)
    ensures Horizon(cursor, a + b) == Horizon(cursor, b)
  {
    FreshConcat(cursor, a, b, fronted, now);
    HorizonConcat(cursor, a, b);
    assert [] + Fresh(cursor, b, fronted, now) == Fresh(cursor, b, fronted, now);
  }

  lemma OldLines(log: seq<Line>, h: nat, lo: nat, hi: nat, fronted: set<string>, now: int)
    requires lo <= hi <= h <= |log|
    ensures Fresh(Horizon(0, log[..h]), log[lo..hi], fronted, now) == []
    ensures Horizon(Horizon(0, log[..h]), log[lo..hi]) == Horizon(0, log[..h])
  {
    HorizonReaches(0, log[..h]);
    forall l | l in log[lo..hi] ensures l.stamp <= Horizon(0, log[..h]) {
      var i :| 0 <= i < hi - lo && log[lo..hi][i] == l;
      assert l == log[..h][lo + i];
    }
    NothingFresh(Horizon(0, log[..h]), log[lo..hi], fronted, now);
  }

  lemma NewLines(log: seq<Line>, h: nat, hi: nat, fronted: set<string>, now: int, now': int)
    requires h <= hi <= |log| && CleanCut(log, h) && LinesOk(log)
    ensures RecsOf(Fresh(Horizon(0, log[..h]), log[h..hi], fronted, now)) == RecsOf(Fresh(0, log[h..hi], fronted, now'))
  {
    CursorBelow(log, h);
    var window := log[h..hi];
    forall i | 0 <= i < |window|
      ensures LineOk(window[i]) && (window[i].stamp > 0 ==> window[i].stamp > Horizon(0, log[..h]))
    {
      assert window[i] == log[h + i];
    }
    FreshAnyway(Horizon(0, log[..h]), window, fronted, now, now');
  }

  lemma CursorBelow(log: seq<Line>, h: nat)
    requires h <= |log| && CleanCut(log, h)
    ensures forall j | h <= j < |log| && log[j].stamp > 0 :: Horizon(0, log[..h]) < log[j].stamp
  {
    var cursor := Horizon(0, log[..h]);
    HorizonIsStamp(log[..h]);
  }

  lemma {:induction false} HorizonIsStamp(window: seq<Line>)
    ensures Horizon(0, window) == 0 || exists i | 0 <= i < |window| :: window[i].stamp == Horizon(0, window)
  {
    if window != [] {
      var before := window[..|window| - 1];
      HorizonIsStamp(before);
      if Horizon(0, before) != 0 && Horizon(0, before) >= window[|window| - 1].stamp {
        var i :| 0 <= i < |before| && before[i].stamp == Horizon(0, before);
        assert window[i].stamp == Horizon(0, window);
      }
    }
  }

  // A table that does not look at the time of sight depends on the requests only.
  lemma {:induction false} ColumnSame<K, V>(of: Entry -> seq<(K, V)>, a: seq<Entry>, b: seq<Entry>)
    requires RecsOf(a) == RecsOf(b)
    requires forall e: Entry, f: Entry | e.rec == f.rec :: of(e) == of(f)
    ensures Column(of, a) == Column(of, b)
  {
    RecsLength(a);
    RecsLength(b);
    if a != [] {
      var m, n := |a| - 1, |b| - 1;
      assert RecsOf(a)[..m] == RecsOf(a[..m]) && RecsOf(b)[..n] == RecsOf(b[..n]);
      assert RecsOf(a)[m] == a[m].rec && RecsOf(b)[n] == b[n].rec;
      ColumnSame(of, a[..m], b[..n]);
    }
  }

  lemma {:induction false} RecsLength(es: seq<Entry>)
    ensures |RecsOf(es)| == |es|
    ensures forall i | 0 <= i < |es| :: RecsOf(es)[i] == es[i].rec
  {
    if es != [] {
      RecsLength(es[..|es| - 1]);
    }
  }

  // Every table but the last-seen times.
  function WithoutLast(t: Batch): Batch {
    t.(last := map[])
  }

  lemma TablesOfRecs(a: seq<Entry>, b: seq<Entry>)
    requires RecsOf(a) == RecsOf(b)
    ensures WithoutLast(TablesOf(a)) == WithoutLast(TablesOf(b))
    ensures MillisOf(a) == MillisOf(b)
  {
    ColumnSame(Visit(), a, b);
    ColumnSame(First(), a, b);
    ColumnSame(Requests(), a, b);
    ColumnSame(ClientErrors(), a, b);
    ColumnSame(ServerErrors(), a, b);
    ColumnSame(Latency(), a, b);
    ColumnSame(Agents(), a, b);
    ColumnSame(Millis(), a, b);
  }

  // So a run over overlapping windows ends where one pass over everything would,
  // and the tables are the same.
  lemma SplitTables(log: seq<Line>, cuts: seq<(nat, nat)>, clock: nat -> int, fronted: set<string>, clock': nat -> int)
    requires LinesOk(log) && CutsOk(log, cuts) && NoGaps(cuts) && CleanCuts(log, cuts)
    ensures Reach(cuts) <= |log|
    ensures var (cursor, ledger) := Run(log, cuts, clock, fronted);
            var (cursor', ledger') := Run(log, [(0, Reach(cuts))], clock', fronted);
            && cursor == cursor' && RecsOf(ledger) == RecsOf(ledger')
            && WithoutLast(TablesOf(ledger)) == WithoutLast(TablesOf(ledger')) && MillisOf(ledger) == MillisOf(ledger')
  {
    SplitInvariant(log, cuts, clock, fronted, clock'(0));
    var whole := [(0, Reach(cuts))];
    assert whole[..0] == [] && Reach(whole[..0]) == 0;
    assert Reach(whole) == Reach(cuts);
    SplitInvariant(log, whole, clock', fronted, clock'(0));
    TablesOfRecs(Run(log, cuts, clock, fronted).1, Run(log, whole, clock', fronted).1);
  }

  // A counted request whose stamp parses is seen at that stamp, whatever the clock.
  predicate SeenAtStamp(e: Entry) {
    e.rec.seen.Some? ==> e.seen == e.rec.seen.value
  }

  lemma {:induction false} FreshSeen(cursor: nat, window: seq<Line>, fronted: set<string>, now: int, i: nat)
    requires i < |Fresh(cursor, window, fronted, now)|
    ensures SeenAtStamp(Fresh(cursor, window, fronted, now)[i])
  {
    if i < |Fresh(cursor, window[..|window| - 1], fronted, now)| {
      FreshSeen(cursor, window[..|window| - 1], fronted, now, i);
    }
  }

  lemma {:induction false} RunSeen(log: seq<Line>, cuts: seq<(nat, nat)>, clock: nat -> int, fronted: set<string>, i: nat)
    requires CutsOk(log, cuts) && i < |Run(log, cuts, clock, fronted).1|
    ensures SeenAtStamp(Run(log, cuts, clock, fronted).1[i])
  {
    var n := |cuts| - 1;
    var (cursor, ledger) := Run(log, cuts[..n], clock, fronted);
    if i < |ledger| {
      RunSeen(log, cuts[..n], clock, fronted, i);
    } else {
      FreshSeen(cursor, log[cuts[n].0..cuts[n].1], fronted, clock(n), i - |ledger|);
    }
  }

  // The last-seen times are the same too when the stamps of the counted requests
  // parse: one that does not is seen at its pass's own clock.
  lemma SplitLastSeen(log: seq<Line>, cuts: seq<(nat, nat)>, clock: nat -> int, fronted: set<string>, clock': nat -> int)
    requires LinesOk(log) && CutsOk(log, cuts) && NoGaps(cuts) && CleanCuts(log, cuts)
    requires Reach(cuts) <= |log|
    requires forall r | r in RecsOf(Run(log, cuts, clock, fronted).1) :: r.seen.Some?
    ensures TablesOf(Run(log, cuts, clock, fronted).1) == TablesOf(Run(log, [(0, Reach(cuts))], clock', fronted).1)
  {
    SplitTables(log, cuts, clock, fronted, clock');
    var a, b := Run(log, cuts, clock, fronted).1, Run(log, [(0, Reach(cuts))], clock', fronted).1;
    RecsLength(a);
    RecsLength(b);
    forall i | 0 <= i < |a| ensures a[i] == b[i] {
      RunSeen(log, cuts, clock, fronted, i);
      RunSeen(log, [(0, Reach(cuts))], clock', fronted, i);
      assert RecsOf(a)[i] in RecsOf(a);
    }
    assert a == b;
  }
}

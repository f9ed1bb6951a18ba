// Latency percentiles from histogram counts (app/stats.py), and how far the
// reported value can be from the percentile of the requests themselves.

module Percentile {
  import opened Text
  import opened Tables
  import opened Ingest

  const BUCKETS := |LATENCY_EDGES| + 1

  function Edge(i: nat): real {
    if i < |LATENCY_EDGES| then LATENCY_EDGES[i] else LATENCY_EDGES[|LATENCY_EDGES| - 1]
  }

  function Sum(counts: seq<nat>): nat {
    if counts == [] then 0 else Sum(counts[..|counts| - 1]) + counts[|counts| - 1]
  }

  // How many fall in buckets 0..i.
  function Cum(counts: seq<nat>, i: nat): nat
    requires i < |counts|
  {
    Sum(counts[..i + 1])
  }

  // The cumulative count reaches the target at bucket `i` and not before.
  predicate ReachesTarget(counts: seq<nat>, target: real, i: nat) {
    && i < |counts|
    && Cum(counts, i) as real >= target
    && forall j: nat | j < i :: (Cum(counts, j) as real) < target
  }

  function Target(p: real, n: nat): real {
    p * n as real
  }

  predicate Reaches(counts: seq<nat>, p: real, i: nat) {
    ReachesTarget(counts, Target(p, Sum(counts)), i)
  }

  method Total(counts: seq<nat>) returns (total: nat)
    ensures total == Sum(counts)
  {
    total := 0;
    for n := 0 to |counts|
      invariant total == Sum(counts[..n])
    {
      assert counts[..n + 1][..n] == counts[..n];
      total := total + counts[n];
    }
    assert counts[..|counts|] == counts;
  }

  // The upper edge of the bucket the percentile falls in; the overflow bucket
  // reports the last edge.
  method PercentileFromHist(counts: seq<nat>, p: real) returns (r: Option<real>, ghost bucket: nat)
    requires p <= 1.0
    ensures r.None? <==> Sum(counts) == 0
    ensures r.Some? ==> Reaches(counts, p, bucket) && r.value == Edge(bucket)
    // the overflow bucket has no edge of its own and reports the last one
    ensures r.Some? ==> r.value == LATENCY_EDGES[if bucket < 11 then bucket else 10]
  {
    bucket := 0;
    var total := Total(counts);
    if total == 0 {
      return None, 0;
    }
    var target := Target(p, total);
    r, bucket := FirstReaching(counts, target);
  }

  method FirstReaching(counts: seq<nat>, target: real) returns (r: Option<real>, ghost bucket: nat)
    requires counts != [] && target <= Sum(counts) as real
    ensures r.Some? && ReachesTarget(counts, target, bucket) && r.value == Edge(bucket)
  {
    bucket := 0;
    var cum := 0;
    for i := 0 to |counts|
      invariant cum == if i == 0 then 0 else Cum(counts, i - 1)
      invariant forall j: nat | j < i :: (Cum(counts, j) as real) < target
    {
      CumNext(counts, i);
      cum := cum + counts[i];
      if cum as real >= target {
        return Some(Edge(i)), i;
      }
    }
    CumLast(counts);
    assert false;
  }

  lemma CumNext(counts: seq<nat>, i: nat)
    requires i < |counts|
    ensures Cum(counts, i) == (if i == 0 then 0 else Cum(counts, i - 1)) + counts[i]
  {
    var s := counts[..i + 1];
    assert s[..|s| - 1] == counts[..i];
    assert s[|s| - 1] == counts[i];
    assert s != [];
    assert Sum(s) == Sum(counts[..i]) + counts[i];
    if i > 0 {
      assert counts[..i] == counts[..(i - 1) + 1];
    }
  }

  lemma CumLast(counts: seq<nat>)
    requires counts != []
    ensures Cum(counts, |counts| - 1) == Sum(counts)
  {
    assert counts[..|counts| - 1 + 1] == counts;
  }

  // ----- the requests behind a histogram -----

  function CountIf(xs: seq<real>, q: real -> bool): nat {
    if xs == [] then 0 else CountIf(xs[..|xs| - 1], q) + if q(xs[|xs| - 1]) then 1 else 0
  }

  function AtMost(v: real): real -> bool {
    (x: real) => x <= v
  }

  function InBucket(b: nat): real -> bool {
    (x: real) => Bucket(x) == b
  }

  function UpTo(b: nat): real -> bool {
    (x: real) => Bucket(x) <= b
  }

  function Hist(xs: seq<real>): seq<nat> {
    seq(BUCKETS, b requires 0 <= b < BUCKETS => CountIf(xs, InBucket(b)))
  }

  // At least `p` of the values are at or below `v`.
  predicate Enough(xs: seq<real>, p: real, v: real) {
    CountIf(xs, AtMost(v)) as real >= Target(p, |xs|)
  }

  // The smallest of the values with at least `p` of them at or below it.
  ghost predicate IsPercentile(xs: seq<real>, p: real, v: real) {
    && v in xs && Enough(xs, p, v)
    && forall w | w in xs && Enough(xs, p, w) :: v <= w
  }

  lemma {:induction false} CountSame(xs: seq<real>, q: real -> bool, r: real -> bool)
    requires forall x | x in xs :: q(x) == r(x)
    ensures CountIf(xs, q) == CountIf(xs, r)
  {
    if xs != [] {
      var before, last := xs[..|xs| - 1], xs[|xs| - 1];
      assert q(last) == r(last);
      CountSame(before, q, r);
    }
  }

  lemma {:induction false} CountNext(xs: seq<real>, b: nat)
    ensures CountIf(xs, UpTo(b + 1)) == CountIf(xs, UpTo(b)) + CountIf(xs, InBucket(b + 1))
  {
    if xs != [] {
      CountNext(xs[..|xs| - 1], b);
      var x := xs[|xs| - 1];
      assert UpTo(b + 1)(x) == (Bucket(x) <= b + 1) && UpTo(b)(x) == (Bucket(x) <= b);
      assert InBucket(b + 1)(x) == (Bucket(x) == b + 1);
    }
  }

  // Adding up the buckets counts the values up to the bucket.
  lemma {:induction false} CumulativeIsCount(xs: seq<real>, b: nat)
    requires b < BUCKETS
    ensures Cum(Hist(xs), b) == CountIf(xs, UpTo(b))
  {
    CumNext(Hist(xs), b);
    if b == 0 {
      CountSame(xs, UpTo(0), InBucket(0));
    } else {
      CumulativeIsCount(xs, b - 1);
      CountNext(xs, b - 1);
    }
  }

  lemma {:induction false} CountAll(xs: seq<real>, q: real -> bool)
    requires forall x :: q(x)
    ensures CountIf(xs, q) == |xs|
  {
    if xs != [] {
      CountAll(xs[..|xs| - 1], q);
    }
  }

  lemma HistTotal(xs: seq<real>)
    ensures Sum(Hist(xs)) == |xs|
  {
    var last := BUCKETS - 1;
    CumulativeIsCount(xs, last);
    CumLast(Hist(xs));
    CountAll(xs, UpTo(last));
  }

  lemma {:induction false} CountPositive(xs: seq<real>, q: real -> bool)
    requires CountIf(xs, q) > 0
    ensures exists x :: x in xs && q(x)
  {
    var last := xs[|xs| - 1];
    assert last in xs;
    if !q(last) {
      CountPositive(xs[..|xs| - 1], q);
    }
  }

  // The largest value satisfying q.
  lemma {:induction false} LargestWhere(xs: seq<real>, q: real -> bool) returns (w: real)
    requires exists x :: x in xs && q(x)
    ensures w in xs && q(w) && forall x | x in xs && q(x) :: x <= w
  {
    var before, last := xs[..|xs| - 1], xs[|xs| - 1];
    assert xs == before + [last];
    if exists x :: x in before && q(x) {
      w := LargestWhere(before, q);
      if q(last) && last > w {
        w := last;
      }
    } else {
      w := last;
    }
  }

  // The buckets up to the percentile's own hold enough, so the report is not later.
  lemma NotLater(xs: seq<real>, target: real, i: nat, v: real)
    requires ReachesTarget(Hist(xs), target, i) && CountIf(xs, AtMost(v)) as real >= target
    ensures i <= Bucket(v)
  {
    var k := Bucket(v);
    CumulativeIsCount(xs, k);
    AtMostWithin(xs, v);
  }

  // The largest value up to the report has enough at or below it.
  lemma LargestHasEnough(xs: seq<real>, target: real, i: nat) returns (w: real)
    requires target > 0.0 && ReachesTarget(Hist(xs), target, i)
    ensures w in xs && Bucket(w) <= i && CountIf(xs, AtMost(w)) as real >= target
  {
    CumulativeIsCount(xs, i);
    CountPositive(xs, UpTo(i));
    w := LargestWhere(xs, UpTo(i));
    CountMonotoneOn(xs, UpTo(i), AtMost(w));
  }

  // The true percentile lies in the reported bucket: at most the returned edge
  // (unless the bucket is the overflow) and above the edge before it.
  lemma ReportedBucketHolds(xs: seq<real>, p: real, i: nat, v: real)
    requires 0.0 < p <= 1.0
    requires Reaches(Hist(xs), p, i) && IsPercentile(xs, p, v)
    ensures Bucket(v) == i
    ensures i < |LATENCY_EDGES| ==> v <= Edge(i)
    ensures i > 0 ==> Edge(i - 1) < v
  {
    HistTotal(xs);
    ReportedBucketIs(xs, p, i, v);
  }

  lemma ReportedBucketIs(xs: seq<real>, p: real, i: nat, v: real)
    requires p > 0.0 && ReachesTarget(Hist(xs), Target(p, |xs|), i) && IsPercentile(xs, p, v)
    ensures Bucket(v) == i
  {
    var target := Target(p, |xs|);
    NotLater(xs, target, i, v);
    var w := LargestHasEnough(xs, target, i);
    assert Enough(xs, p, w);
  }

  lemma AtMostWithin(xs: seq<real>, v: real)
    ensures CountIf(xs, AtMost(v)) <= CountIf(xs, UpTo(Bucket(v)))
  {
    forall x | x <= v ensures Bucket(x) <= Bucket(v) {
    }
  }

  lemma {:induction false} CountMonotoneOn(xs: seq<real>, q: real -> bool, r: real -> bool)
    requires forall x | x in xs :: q(x) ==> r(x)
    ensures CountIf(xs, q) <= CountIf(xs, r)
  {
    if xs != [] {
      var before, last := xs[..|xs| - 1], xs[|xs| - 1];
      assert q(last) ==> r(last);
      CountMonotoneOn(before, q, r);
    }
  }

  // A higher percentile never reports a lower value.
  lemma ReportMonotone(counts: seq<nat>, p: real, q: real, i: nat, j: nat)
    requires p <= q && |counts| == BUCKETS && Reaches(counts, p, i) && Reaches(counts, q, j)
    ensures i <= j && Edge(i) <= Edge(j)
  {
    ScaleMonotone(p, q, Sum(counts));
    ReachesLater(counts, Target(p, Sum(counts)), Target(q, Sum(counts)), i, j);
  }

  lemma ScaleMonotone(p: real, q: real, n: nat)
    requires p <= q
    ensures Target(p, n) <= Target(q, n)
  {}

  lemma ReachesLater(counts: seq<nat>, t: real, u: real, i: nat, j: nat)
    requires t <= u && ReachesTarget(counts, t, i) && ReachesTarget(counts, u, j)
    ensures i <= j
  {}

  // ----- from the stored table -----

  // The durations of an app's requests on the days asked about.
  function Durations(es: seq<Entry>, app: string, within: int -> bool): seq<real> {
    if es == [] then []
    else
      var e := es[|es| - 1];
      Durations(es[..|es| - 1], app, within)
      + if e.rec.app == app && within(e.rec.day) && e.rec.dur.Some? then [e.rec.dur.value] else []
  }

  // The rows summed by bucket, as the dashboard's query does.
  ghost function BucketSum(table: map<LatencyKey, int>, app: string, within: int -> bool, b: nat): int {
    SumWhere(table, (k: LatencyKey) => k.0 == app && within(k.1) && k.2 == b)
  }

  lemma {:induction false} CountDurations(es: seq<Entry>, app: string, within: int -> bool, b: nat)
    ensures CountWhere(es, (e: Entry) => e.rec.app == app && within(e.rec.day) && e.rec.dur.Some? && Bucket(e.rec.dur.value) == b)
            == CountIf(Durations(es, app, within), InBucket(b))
  {
    if es != [] {
      CountDurations(es[..|es| - 1], app, within, b);
      var before, e := Durations(es[..|es| - 1], app, within), es[|es| - 1];
      if e.rec.app == app && within(e.rec.day) && e.rec.dur.Some? {
        assert (before + [e.rec.dur.value])[..|before|] == before;
      } else {
        assert before + [] == before;
      }
    }
  }

  // The stored latency table, summed over any days, is the histogram of the
  // durations of the requests that were counted, so the bound above holds of the
  // percentiles the dashboard shows.
  lemma TableIsHist(es: seq<Entry>, app: string, within: int -> bool, b: nat)
    requires b < BUCKETS
    ensures BucketSum(TablesOf(es).latency, app, within, b) == Hist(Durations(es, app, within))[b]
  {
    SumOfColumn(Latency(), (k: LatencyKey) => k.0 == app && within(k.1) && k.2 == b,
                (e: Entry) => e.rec.app == app && within(e.rec.day) && e.rec.dur.Some? && Bucket(e.rec.dur.value) == b, es);
    CountDurations(es, app, within, b);
  }

  // The histogram list of one app from its rows of the query; rows with a bucket
  // out of range are ignored.
  method HistOfRows(rows: seq<(int, nat)>) returns (h: seq<nat>)
    requires forall i, j | 0 <= i < j < |rows| :: rows[i].0 != rows[j].0
    ensures |h| == BUCKETS
    ensures forall r | r in rows && 0 <= r.0 < BUCKETS :: h[r.0] == r.1
    ensures forall b | 0 <= b < BUCKETS && (forall r | r in rows :: r.0 != b) :: h[b] == 0
  {
    h := seq(BUCKETS, i => 0);
    for n := 0 to |rows|
      invariant |h| == BUCKETS
      invariant forall m | 0 <= m < n && 0 <= rows[m].0 < BUCKETS :: h[rows[m].0] == rows[m].1
      invariant forall b | 0 <= b < BUCKETS && (forall m | 0 <= m < n :: rows[m].0 != b) :: h[b] == 0
    {
      var (b, c) := rows[n];
      if 0 <= b < BUCKETS {
        h := h[b := c];
      }
    }
    forall b | 0 <= b < BUCKETS && (forall r | r in rows :: r.0 != b) ensures h[b] == 0 {
      assert forall m | 0 <= m < |rows| :: rows[m] in rows;
    }
  }
}

// Additive tables: a table is a fold of (key, value) items, merging two tables is
// folding their items one after the other, and sums over a table are sums over
// its items. These are the upserts of the rollups: a pass folds its lines in
// memory and merges the result row by row, adding counts, keeping the least first
// day and the greatest time.

module Tables {
  function Put<K(==), V>(m: map<K, V>, k: K, v: V, op: (V, V) -> V): map<K, V> {
    m[k := if k in m then op(m[k], v) else v]
  }

  function Fold<K(==), V>(items: seq<(K, V)>, op: (V, V) -> V): map<K, V> {
    if items == [] then map[]
    else
      var (k, v) := items[|items| - 1];
      Put(Fold(items[..|items| - 1], op), k, v, op)
  }

  // The upsert: rows of `batch` are combined into rows of `table`.
  function Merge<K(==), V>(table: map<K, V>, batch: map<K, V>, op: (V, V) -> V): map<K, V> {
    map k | k in table.Keys + batch.Keys ::
      if k in table && k in batch then op(table[k], batch[k])
      else if k in table then table[k] else batch[k]
  }

  ghost predicate Associative<V(!new)>(op: (V, V) -> V) {
    forall x, y, z :: op(op(x, y), z) == op(x, op(y, z))
  }

  // Folding a batch on its own and merging it is folding it into the table.
  lemma {:induction false} MergeIsFold<K, V(!new)>(a: seq<(K, V)>, b: seq<(K, V)>, op: (V, V) -> V)
    requires Associative(op)
    ensures Merge(Fold(a, op), Fold(b, op), op) == Fold(a + b, op)
  {
    if b == [] {
      assert a + b == a;
    } else {
      var before := b[..|b| - 1];
      var (k, v) := b[|b| - 1];
      assert a + b == (a + before) + [(k, v)];
      MergeIsFold(a, before, op);
    }
  }

  // ----- sums -----

  ghost function SumWhere<K(!new)>(m: map<K, int>, p: K -> bool): int
    decreases |m|
  {
    if m == map[] then 0
    else
      var k :| k in m;
      assert |m - {k}| < |m| by { SmallerWithout(m, k); }
      (if p(k) then m[k] else 0) + SumWhere(m - {k}, p)
  }

  lemma SmallerWithout<K, V>(m: map<K, V>, k: K)
    requires k in m
    ensures |m - {k}| == |m| - 1
  {
    assert (m - {k}).Keys == m.Keys - {k};
    assert |(m - {k}).Keys| == |m - {k}| && |m.Keys| == |m|;
  }

  lemma {:induction false} SumSplit<K(!new)>(m: map<K, int>, p: K -> bool, k: K)
    requires k in m
    ensures SumWhere(m, p) == (if p(k) then m[k] else 0) + SumWhere(m - {k}, p)
    decreases |m|
  {
    var j :| j in m && SumWhere(m, p) == (if p(j) then m[j] else 0) + SumWhere(m - {j}, p);
    if j != k {
      SmallerWithout(m, j);
      SumSplit(m - {j}, p, k);
      SmallerWithout(m, k);
      SumSplit(m - {k}, p, j);
      assert m - {j} - {k} == m - {k} - {j};
    }
  }

  lemma SumPut<K(!new)>(m: map<K, int>, k: K, v: int, p: K -> bool)
    ensures SumWhere(Put(m, k, v, (x: int, y: int) => x + y), p) == SumWhere(m, p) + (if p(k) then v else 0)
  {
    var n := Put(m, k, v, (x: int, y: int) => x + y);
    SumSplit(n, p, k);
    if k in m {
      SumSplit(m, p, k);
      assert n - {k} == m - {k};
    } else {
      assert n - {k} == m;
    }
  }

  ghost function SumItems<K>(items: seq<(K, int)>, p: K -> bool): int {
    if items == [] then 0
    else
      var (k, v) := items[|items| - 1];
      SumItems(items[..|items| - 1], p) + if p(k) then v else 0
  }

  function Plus(): (int, int) -> int {
    (x: int, y: int) => x + y
  }

  lemma {:induction false} SumOfFold<K(!new)>(items: seq<(K, int)>, p: K -> bool)
    ensures SumWhere(Fold(items, Plus()), p) == SumItems(items, p)
  {
    if items != [] {
      var (k, v) := items[|items| - 1];
      SumOfFold(items[..|items| - 1], p);
      SumPut(Fold(items[..|items| - 1], Plus()), k, v, p);
    }
  }
}

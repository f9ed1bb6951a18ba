// Quantised embeddings (rag/embed.py) over exact reals: each component of a unit
// vector is stored as one of 255 levels, and a query is scored against the levels.

module Similarity {
  import opened Numbers

  type Vector = seq<real>

  function Dot(u: Vector, v: Vector): real
    requires |u| == |v|
  {
    if u == [] then 0.0 else u[0] * v[0] + Dot(u[1..], v[1..])
  }

  function Abs(x: real): real {
    if x < 0.0 then -x else x
  }

  function L1(v: Vector): real {
    if v == [] then 0.0 else Abs(v[0]) + L1(v[1..])
  }

  function Clip(n: int): int {
    if n < -127 then -127 else if n > 127 then 127 else n
  }

  function Level(x: real): (n: int)
    ensures -127 <= n <= 127
  {
    Clip(Round(x * 127.0))
  }

  // A component within one is stored at the nearest level, one beyond it at the last.
  lemma LevelExactly(x: real)
    ensures -1.0 <= x <= 1.0 ==> Level(x) == Round(x * 127.0)
    ensures x > 1.0 ==> Level(x) == 127
    ensures x < -1.0 ==> Level(x) == -127
  {}

  function Quantize(v: Vector): (q: seq<int>)
    ensures |q| == |v|
    ensures forall i | 0 <= i < |q| :: -127 <= q[i] <= 127
  {
    if v == [] then [] else [Level(v[0])] + Quantize(v[1..])
  }

  function Dequantize(q: seq<int>): (v: Vector)
    ensures |v| == |q|
  {
    if q == [] then [] else [q[0] as real] + Dequantize(q[1..])
  }

  // The score of a stored row against a query.
  function Similarity(row: seq<int>, query: Vector): real
    requires |row| == |query|
  {
    Dot(Dequantize(row), query)
  }

  // One row of encode: divided by its norm, or left alone when the norm is zero.
  function Normalized(v: Vector, norm: real): (u: Vector)
    requires norm >= 0.0
    ensures |u| == |v|
  {
    var n := if norm == 0.0 then 1.0 else norm;
    if v == [] then [] else [v[0] / n] + Normalized(v[1..], norm)
  }

  predicate AtMostUnit(v: Vector) {
    Dot(v, v) <= 1.0
  }

  // ----- what encode gives -----

  lemma {:induction false} DotNonNegative(v: Vector)
    ensures Dot(v, v) >= 0.0
  {
    if v != [] {
      DotNonNegative(v[1..]);
    }
  }

  lemma {:induction false} NormalizedSquare(v: Vector, norm: real)
    requires norm > 0.0
    ensures Dot(Normalized(v, norm), Normalized(v, norm)) * norm * norm == Dot(v, v)
  {
    if v != [] {
      NormalizedSquare(v[1..], norm);
      var x, rest := v[0], Dot(Normalized(v[1..], norm), Normalized(v[1..], norm));
      assert Normalized(v, norm)[1..] == Normalized(v[1..], norm);
    }
  }

  lemma {:induction false} ZeroNorm(v: Vector)
    requires Dot(v, v) == 0.0
    ensures Dot(Normalized(v, 0.0), Normalized(v, 0.0)) == 0.0
  {
    if v != [] {
      DotNonNegative(v[1..]);
      assert v[0] * v[0] == 0.0;
      ZeroNorm(v[1..]);
      assert Normalized(v, 0.0)[1..] == Normalized(v[1..], 0.0);
    }
  }

  // A row divided by its norm has length one; an all-zero row stays zero.
  lemma EncodedIsUnit(v: Vector, norm: real)
    requires norm >= 0.0 && norm * norm == Dot(v, v)
    ensures Dot(Normalized(v, norm), Normalized(v, norm)) == if norm == 0.0 then 0.0 else 1.0
  {
    if norm == 0.0 {
      ZeroNorm(v);
    } else {
      NormalizedSquare(v, norm);
      UnitOf(Dot(Normalized(v, norm), Normalized(v, norm)), norm, Dot(v, v));
    }
  }

  lemma UnitOf(d: real, n: real, s: real)
    requires n > 0.0 && n * n == s && d * n * n == s
    ensures d == 1.0
  {
    var y := d * n;
    assert (y - n) * n == 0.0;
    assert y == n;
    assert (d - 1.0) * n == 0.0;
  }

  // ----- how far a score is from the cosine -----

  lemma ErrorTerm(d: real, q: real, e: real)
    requires Abs(d) <= 0.5 && e == d * q
    ensures Abs(e) <= 0.5 * Abs(q)
  {
    if q >= 0.0 {
      assert -0.5 * q <= d * q <= 0.5 * q;
    } else {
      assert -0.5 * (-q) <= d * (-q) <= 0.5 * (-q);
    }
  }

  ghost predicate Near(v: Vector, query: Vector)
    requires |v| == |query|
  {
    Abs(Similarity(Quantize(v), query) - 127.0 * Dot(v, query)) <= 0.5 * L1(query)
  }

  // Each score is within half the query's L1 norm of 127 times the true cosine.
  lemma {:induction false} SimilarityError(v: Vector, query: Vector)
    requires |v| == |query| && AtMostUnit(v)
    ensures Near(v, query)
  {
    if v != [] {
      UnitParts(v);
      SimilarityError(v[1..], query[1..]);
      OneMoreComponent(v, query);
    }
  }

  lemma OneMoreComponent(v: Vector, query: Vector)
    requires |v| == |query| > 0 && Near(v[1..], query[1..])
    requires Abs(Level(v[0]) as real - 127.0 * v[0]) <= 0.5
    ensures Near(v, query)
  {
    var rest, q := Dequantize(Quantize(v[1..])), query[1..];
    assert Dot(v, query) == v[0] * query[0] + Dot(v[1..], q);
    OneMore(Level(v[0]) as real, v[0], query[0], Dot(rest, q), Dot(v[1..], q), L1(q),
            Similarity(Quantize(v), query), Dot(v, query), L1(query));
  }

  lemma UnitParts(v: Vector)
    requires v != [] && AtMostUnit(v)
    ensures AtMostUnit(v[1..]) && Abs(Level(v[0]) as real - 127.0 * v[0]) <= 0.5
  {
    DotNonNegative(v[1..]);
  }

  lemma OneMore(level: real, x: real, q: real, sim: real, cos: real, l1: real, s: real, c: real, n: real)
    requires Abs(level - 127.0 * x) <= 0.5 && Abs(sim - 127.0 * cos) <= 0.5 * l1
    requires s == level * q + sim && c == x * q + cos && n == Abs(q) + l1
    ensures Abs(s - 127.0 * c) <= 0.5 * n
  {
    var e := (level - 127.0 * x) * q;
    ErrorTerm(level - 127.0 * x, q, e);
    assert e == level * q - 127.0 * (x * q);
    Combine(e, sim, cos, level * q, x * q);
  }

  lemma Combine(e: real, sim: real, cos: real, a: real, b: real)
    requires e == a - 127.0 * b
    ensures a + sim - 127.0 * (b + cos) == e + (sim - 127.0 * cos)
  {}

  // Chunks whose cosines differ by more than the query's L1 norm over 127 keep
  // their order.
  lemma OrderKept(u: Vector, v: Vector, query: Vector)
    requires |u| == |v| == |query| && AtMostUnit(u) && AtMostUnit(v)
    requires 127.0 * (Dot(u, query) - Dot(v, query)) > L1(query)
    ensures Similarity(Quantize(u), query) > Similarity(Quantize(v), query)
  {
    SimilarityError(u, query);
    SimilarityError(v, query);
  }

  // Closer ones need not: here the query is the first chunk's own vector, and the
  // second chunk scores higher.
  lemma RankingCanChange()
    ensures var u, v := [35.0 / 37.0, 12.0 / 37.0], [24.0 / 25.0, 7.0 / 25.0];
            && Dot(u, u) == 1.0 && Dot(v, v) == 1.0
            && Dot(u, u) > Dot(v, u)
            && Similarity(Quantize(u), u) < Similarity(Quantize(v), u)
  {
    Two(35.0 / 37.0, 12.0 / 37.0, 35.0 / 37.0, 12.0 / 37.0);
    Two(24.0 / 25.0, 7.0 / 25.0, 24.0 / 25.0, 7.0 / 25.0);
    Two(24.0 / 25.0, 7.0 / 25.0, 35.0 / 37.0, 12.0 / 37.0);
    SimilarityOfTwo(35.0 / 37.0, 12.0 / 37.0, 35.0 / 37.0, 12.0 / 37.0);
    SimilarityOfTwo(24.0 / 25.0, 7.0 / 25.0, 35.0 / 37.0, 12.0 / 37.0);
  }

  lemma SimilarityOfTwo(a: real, b: real, c: real, d: real)
    ensures Similarity(Quantize([a, b]), [c, d]) == Level(a) as real * c + Level(b) as real * d
  {
    TwoLevels(a, b);
    Two(Level(a) as real, Level(b) as real, c, d);
  }

  lemma Two(a: real, b: real, c: real, d: real)
    ensures Dot([a, b], [c, d]) == a * c + b * d
  {
    assert [a, b][1..] == [b] && [c, d][1..] == [d];
    assert Dot([b], [d]) == b * d + Dot([b][1..], [d][1..]);
  }

  lemma TwoLevels(a: real, b: real)
    ensures Dequantize(Quantize([a, b])) == [Level(a) as real, Level(b) as real]
  {
    assert [a, b][1..] == [b];
    assert Quantize([b]) == [Level(b)] + Quantize([b][1..]);
    var l, m := Level(a), Level(b);
    assert Quantize([a, b]) == [l, m];
    assert [l, m][1..] == [m];
    assert Dequantize([m]) == [m as real] + Dequantize([m][1..]);
  }
}

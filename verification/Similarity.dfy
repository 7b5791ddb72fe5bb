/** Cosine similarity and brute-force nearest neighbours
    (crates/rustykrab-memory/src/embedding.rs), over the reals.  `sqrt` is a parameter known only
    through `IsSqrt`. */
module Similarity {
  import opened Ranking

  type Embedding = seq<real>

  // f32::EPSILON
  const EPSILON := 1.0 / 8388608.0

  ghost predicate IsSqrt(sqrt: real -> real) {
    forall x :: x >= 0.0 ==> sqrt(x) >= 0.0 && sqrt(x) * sqrt(x) == x
  }

  function Dot(a: Embedding, b: Embedding): real
    requires |a| == |b|
  {
    if a == [] then 0.0
    else var n := |a| - 1; Dot(a[..n], b[..n]) + a[n] * b[n]
  }

  /** 0 for vectors of different length or of (nearly) no length. */
  function Cosine(sqrt: real -> real, a: Embedding, b: Embedding): real {
    if |a| != |b| then 0.0
    else
      var denom := sqrt(Dot(a, a)) * sqrt(Dot(b, b));
      if denom < EPSILON then 0.0 else Dot(a, b) / denom
  }

  method CosineSimilarity(sqrt: real -> real, a: Embedding, b: Embedding) returns (sim: real)
    ensures sim == Cosine(sqrt, a, b)
  {
    if |a| != |b| {
      return 0.0;
    }
    var dot, normA, normB := 0.0, 0.0, 0.0;
    for i := 0 to |a|
      invariant dot == Dot(a[..i], b[..i])
      invariant normA == Dot(a[..i], a[..i])
      invariant normB == Dot(b[..i], b[..i])
    {
      assert a[..i + 1][..i] == a[..i] && b[..i + 1][..i] == b[..i];
      dot := dot + a[i] * b[i];
      normA := normA + a[i] * a[i];
      normB := normB + b[i] * b[i];
    }
    assert a[..|a|] == a && b[..|a|] == b;
    var denom := sqrt(normA) * sqrt(normB);
    sim := if denom < EPSILON then 0.0 else dot / denom;
  }

  lemma {:induction false} DotCommutes(a: Embedding, b: Embedding)
    requires |a| == |b|
    ensures Dot(a, b) == Dot(b, a)
  {
    if a != [] {
      DotCommutes(a[..|a| - 1], b[..|a| - 1]);
    }
  }

  lemma {:induction false} NormIsNonNegative(a: Embedding)
    ensures Dot(a, a) >= 0.0
  {
    if a != [] {
      NormIsNonNegative(a[..|a| - 1]);
    }
  }

  /** The order of the arguments does not matter, so one weight serves both directions of a link. */
  lemma {:induction false} CosineCommutes(sqrt: real -> real, a: Embedding, b: Embedding)
    ensures Cosine(sqrt, a, b) == Cosine(sqrt, b, a)
  {
    if |a| == |b| {
      DotCommutes(a, b);
    }
  }

  lemma {:induction false} SquareIsNonNegative(x: real)
    ensures x * x >= 0.0
  {
  }

  lemma {:induction false} ProductIsNonNegative(x: real, y: real)
    requires x >= 0.0 && y >= 0.0
    ensures x * y >= 0.0
  {
  }

  lemma {:induction false} DividesSign(x: real, y: real)
    requires x > 0.0 && x * y >= 0.0
    ensures y >= 0.0
  {
  }

  lemma {:induction false} NotPositive(x: real)
    requires x * x <= 0.0
    ensures x <= 0.0
  {
    if x > 0.0 {
      DividesSign(x, 0.0 - x);
    }
  }

  lemma {:induction false} ZeroSquare(x: real)
    requires x * x <= 0.0
    ensures x == 0.0
  {
    NotPositive(x);
    NotPositive(0.0 - x);
  }

  /** One more component: what has to be added on the left is covered on the right. */
  lemma {:induction false} CrossTerm(d: real, na: real, nb: real, x: real, y: real)
    requires na >= 0.0 && nb >= 0.0 && d * d <= na * nb
    ensures 2.0 * (d * (x * y)) <= na * (y * y) + nb * (x * x)
  {
    SquareIsNonNegative(x);
    SquareIsNonNegative(y);
    if na == 0.0 {
      ZeroSquare(d);
      ProductIsNonNegative(nb, x * x);
    } else {
      var rest := na * (y * y) + nb * (x * x) - 2.0 * (d * (x * y));
      var u := na * y - d * x;
      SquareIsNonNegative(u);
      ProductIsNonNegative(na * nb - d * d, x * x);
      assert u * u == (na * y) * (na * y) - 2.0 * ((na * y) * (d * x)) + (d * x) * (d * x);
      assert na * rest == u * u + (na * nb - d * d) * (x * x);
      DividesSign(na, rest);
    }
  }

  lemma {:induction false} Step(d: real, na: real, nb: real, x: real, y: real)
    requires na >= 0.0 && nb >= 0.0 && d * d <= na * nb
    ensures (d + x * y) * (d + x * y) <= (na + x * x) * (nb + y * y)
  {
    CrossTerm(d, na, nb, x, y);
    var p := x * y;
    assert p * p == (x * x) * (y * y);
    assert (d + p) * (d + p) == d * d + 2.0 * (d * p) + p * p;
    assert (na + x * x) * (nb + y * y) == na * nb + na * (y * y) + nb * (x * x) + (x * x) * (y * y);
  }

  lemma {:induction false} CauchySchwarz(a: Embedding, b: Embedding)
    requires |a| == |b|
    ensures Dot(a, b) * Dot(a, b) <= Dot(a, a) * Dot(b, b)
  {
    if a != [] {
      var n := |a| - 1;
      CauchySchwarz(a[..n], b[..n]);
      NormIsNonNegative(a[..n]);
      NormIsNonNegative(b[..n]);
      Step(Dot(a[..n], b[..n]), Dot(a[..n], a[..n]), Dot(b[..n], b[..n]), a[n], b[n]);
    }
  }

  lemma {:induction false} LargerSquare(x: real, bound: real)
    requires x > bound > 0.0
    ensures x * x > bound * bound
  {
    ProductIsNonNegative(x - bound, x - bound);
    assert x * x - bound * bound == (x - bound) * (x - bound) + 2.0 * (bound * (x - bound));
  }

  lemma {:induction false} SmallerSquare(x: real, bound: real)
    requires bound > 0.0 && x * x <= bound * bound
    ensures 0.0 - bound <= x <= bound
  {
    assert (0.0 - x) * (0.0 - x) == x * x;
    if x > bound {
      LargerSquare(x, bound);
    } else if 0.0 - x > bound {
      LargerSquare(0.0 - x, bound);
    }
  }

  lemma {:induction false} QuotientInUnit(x: real, d: real)
    requires d > 0.0 && 0.0 - d <= x <= d
    ensures -1.0 <= x / d <= 1.0
  {
    var q := x / d;
    assert q * d == x;
    assert (1.0 - q) * d >= 0.0 && (q + 1.0) * d >= 0.0;
  }

  lemma {:induction false} SquareOfProduct(x: real, y: real)
    ensures (x * y) * (x * y) == (x * x) * (y * y)
  {
  }

  /** Similarities, and so link weights, lie in [-1, 1]. */
  lemma {:induction false} CosineInUnit(sqrt: real -> real, a: Embedding, b: Embedding)
    requires IsSqrt(sqrt)
    ensures -1.0 <= Cosine(sqrt, a, b) <= 1.0
  {
    if |a| == |b| {
      var sa, sb := sqrt(Dot(a, a)), sqrt(Dot(b, b));
      NormIsNonNegative(a);
      NormIsNonNegative(b);
      if sa * sb >= EPSILON {
        CauchySchwarz(a, b);
        SquareOfProduct(sa, sb);
        SmallerSquare(Dot(a, b), sa * sb);
        QuotientInUnit(Dot(a, b), sa * sb);
        assert Cosine(sqrt, a, b) == Dot(a, b) / (sa * sb);
      } else {
        assert Cosine(sqrt, a, b) == 0.0;
      }
    }
  }

  // ---- top_k_similar -----------------------------------------------------------------------

  datatype Near<K> = Near(key: K, sim: real)

  function SimOf<K>(n: Near<K>): real { n.sim }
  function KeyOf<K>(n: Near<K>): K { n.key }

  function Rated<K>(sqrt: real -> real, query: Embedding, candidates: seq<(K, Embedding)>): (r: seq<Near<K>>)
    ensures |r| == |candidates|
    ensures forall i :: 0 <= i < |r| ==> r[i] == Near(candidates[i].0, Cosine(sqrt, query, candidates[i].1))
  {
    seq(|candidates|, i requires 0 <= i < |candidates| =>
      Near(candidates[i].0, Cosine(sqrt, query, candidates[i].1)))
  }

  function TopKSimilar<K>(sqrt: real -> real, query: Embedding, candidates: seq<(K, Embedding)>, k: nat): seq<Near<K>>
  {
    Truncated(SortDesc(Rated(sqrt, query, candidates), SimOf), k)
  }

  /** The k best: together with the rest they are all the candidates, and nothing left out beats
      anything returned. */
  lemma {:induction false} TopKIsBest<K>(sqrt: real -> real, query: Embedding, candidates: seq<(K, Embedding)>, k: nat)
    returns (rest: seq<Near<K>>)
    ensures
      var top := TopKSimilar(sqrt, query, candidates, k);
      && |top| == (if |candidates| <= k then |candidates| else k)
      && multiset(top) + multiset(rest) == multiset(Rated(sqrt, query, candidates))
      && (forall i, j :: 0 <= i < |top| && 0 <= j < |rest| ==> top[i].sim >= rest[j].sim)
      && (forall i, j :: 0 <= i < j < |top| ==> top[i].sim >= top[j].sim)
  {
    var sorted := SortDesc(Rated(sqrt, query, candidates), SimOf);
    SortDescSorts(Rated(sqrt, query, candidates), SimOf);
    var top := Truncated(sorted, k);
    rest := sorted[|top|..];
    assert sorted == top + rest;
    forall i, j | 0 <= i < |top| && 0 <= j < |rest| ensures top[i].sim >= rest[j].sim {
      assert SimOf(sorted[i]) >= SimOf(sorted[|top| + j]);
    }
    forall i, j | 0 <= i < j < |top| ensures top[i].sim >= top[j].sim {
      assert SimOf(sorted[i]) >= SimOf(sorted[j]);
    }
  }

  /** Every key returned is the key of a candidate. */
  lemma {:induction false} TopKFromCandidates<K>(sqrt: real -> real, query: Embedding,
        candidates: seq<(K, Embedding)>, k: nat,
                              p: K -> bool)
    requires forall i :: 0 <= i < |candidates| ==> p(candidates[i].0)
    ensures forall i :: 0 <= i < |TopKSimilar(sqrt, query, candidates, k)| ==>
              p(TopKSimilar(sqrt, query, candidates, k)[i].key)
  {
    SortKeepsAll(Rated(sqrt, query, candidates), SimOf, (n: Near<K>) => p(n.key));
  }
}

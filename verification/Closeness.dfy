/** What counts as close (crates/rustykrab-memory/src/embedding.rs, lifecycle.rs and writer.rs): the
    direction in which cosine similarity works, and exactly which pairs `detect_near_duplicates` links. */
module Closeness {
  import opened Options
  import opened MemoryTypes
  import opened Ranking
  import opened Similarity
  import opened Storage
  import opened NearDuplicates
  import opened Writer

  // ---- Cosine similarity -------------------------------------------------------------------

  function Scaled(c: real, a: Embedding): (r: Embedding)
    ensures |r| == |a| && forall i :: 0 <= i < |a| ==> r[i] == c * a[i]
  {
    seq(|a|, i requires 0 <= i < |a| => c * a[i])
  }

  lemma {:induction false} DotScales(a: Embedding, b: Embedding, c: real)
    requires |a| == |b|
    ensures Dot(a, Scaled(c, b)) == c * Dot(a, b)
  {
    if a != [] {
      var n := |a| - 1;
      DotScales(a[..n], b[..n], c);
      assert Scaled(c, b)[..n] == Scaled(c, b[..n]) by {
        forall k | 0 <= k < n ensures Scaled(c, b)[..n][k] == Scaled(c, b[..n])[k] {
          assert Scaled(c, b[..n])[k] == c * b[..n][k];
        }
      }
      assert a[n] * (c * b[n]) == c * (a[n] * b[n]);
    }
  }

  lemma {:induction false} LengthsMultiply(sqrt: real -> real, a: Embedding)
    requires IsSqrt(sqrt)
    ensures sqrt(Dot(a, a)) * sqrt(Dot(a, a)) == Dot(a, a) && sqrt(Dot(a, a)) >= 0.0
  {
    NormIsNonNegative(a);
  }

  lemma {:induction false} Quotient(x: real, d: real, q: real)
    requires d != 0.0 && q * d == x
    ensures x / d == q
  {
    assert (x / d - q) * d == 0.0;
  }

  /** A vector is as similar to itself as can be. */
  lemma {:induction false} CosineOfSelf(sqrt: real -> real, a: Embedding)
    requires IsSqrt(sqrt) && Dot(a, a) >= EPSILON
    ensures Cosine(sqrt, a, a) == 1.0
  {
    LengthsMultiply(sqrt, a);
    Quotient(Dot(a, a), Dot(a, a), 1.0);
  }

  lemma {:induction false} DotOfOpposite(a: Embedding)
    ensures var b := Scaled(-1.0, a); Dot(a, b) == 0.0 - Dot(a, a) && Dot(b, b) == Dot(a, a)
  {
    var b := Scaled(-1.0, a);
    DotScales(a, a, -1.0);
    DotScales(b, a, -1.0);
    DotCommutes(a, b);
  }

  /** And as dissimilar as can be to its opposite. */
  lemma {:induction false} CosineOfOpposite(sqrt: real -> real, a: Embedding)
    requires IsSqrt(sqrt) && Dot(a, a) >= EPSILON
    ensures Cosine(sqrt, a, Scaled(-1.0, a)) == -1.0
  {
    DotOfOpposite(a);
    LengthsMultiply(sqrt, a);
    Quotient(0.0 - Dot(a, a), Dot(a, a), -1.0);
  }

  /** Between two vectors of one length, the one with the larger product is the more similar. */
  lemma {:induction false} LargerProductIsCloser(sqrt: real -> real, query: Embedding, a: Embedding, b: Embedding)
    requires IsSqrt(sqrt) && |query| == |a| == |b| && Dot(a, a) == Dot(b, b)
    requires sqrt(Dot(query, query)) * sqrt(Dot(a, a)) >= EPSILON
    ensures Cosine(sqrt, query, a) < Cosine(sqrt, query, b) <==> Dot(query, a) < Dot(query, b)
  {
    var denom := sqrt(Dot(query, query)) * sqrt(Dot(a, a));
    CosineIs(sqrt, query, a, denom);
    CosineIs(sqrt, query, b, denom);
    DivisionKeepsOrder(Dot(query, a), Dot(query, b), denom);
  }

  lemma {:induction false} CosineIs(sqrt: real -> real, a: Embedding, b: Embedding, denom: real)
    requires |a| == |b| && denom == sqrt(Dot(a, a)) * sqrt(Dot(b, b)) && denom >= EPSILON
    ensures denom > 0.0 && Cosine(sqrt, a, b) == Dot(a, b) / denom
  {
  }

  lemma {:induction false} DivisionKeepsOrder(x: real, y: real, d: real)
    requires d > 0.0
    ensures x / d < y / d <==> x < y
  {
    var p, q := x / d, y / d;
    assert p * d == x && q * d == y;
    StrictProduct(q - p, d);
    StrictProduct(p - q, d);
    assert (q - p) * d == y - x && (p - q) * d == x - y;
  }

  lemma {:induction false} StrictProduct(x: real, y: real)
    requires y > 0.0
    ensures x > 0.0 ==> x * y > 0.0
    ensures x == 0.0 ==> x * y == 0.0
  {
  }

  // ---- The thresholds ----------------------------------------------------------------------

  /** A pair is linked from the lower of the two thresholds on, and so is every closer pair. */
  lemma {:induction false} CloseFrom(d: Detector, sim: real)
    requires d.cfg.dedupDistinctThreshold <= d.cfg.dedupAutoMergeThreshold
    ensures d.Close(sim) <==> d.cfg.dedupDistinctThreshold <= sim
  {
  }

  lemma {:induction false} CloserIsClose(d: Detector, sim: real, more: real)
    requires d.Close(sim) && sim <= more
    ensures d.Close(more)
  {
  }

  /** A chunk of another memory with the very embedding is a duplicate at any threshold up to 1. */
  lemma {:induction false} SameEmbeddingIsDuplicate(c: Chunk, id: Id, sqrt: real -> real, threshold: real)
    requires IsSqrt(sqrt) && Dot(c.embedding, c.embedding) >= EPSILON && threshold <= 1.0 && c.memory != id
    ensures Duplicates(c, id, c.embedding, sqrt, threshold)
  {
    CosineOfSelf(sqrt, c.embedding);
  }

  /** Of two chunks of other memories, the more similar one is a duplicate if the other is. */
  lemma {:induction false} CloserIsDuplicate(c: Chunk, e: Chunk, id: Id, emb: Embedding, sqrt: real -> real, threshold: real)
    requires Duplicates(c, id, emb, sqrt, threshold) && e.memory != id
    requires Cosine(sqrt, emb, c.embedding) <= Cosine(sqrt, emb, e.embedding)
    ensures Duplicates(e, id, emb, sqrt, threshold)
  {
  }

  // ---- Which pairs are linked --------------------------------------------------------------

  predicate ClosePair(d: Detector, embs: seq<Labelled>, i: nat, j: nat)
    requires i < |embs| && j < |embs|
  {
    d.Close(Cosine(d.sqrt, embs[i].1, embs[j].1))
  }

  /** How many of the memories from `from` up to `to` are close to the i-th. */
  function CloseBetween(d: Detector, embs: seq<Labelled>, i: nat, from: nat, to: nat): nat
    requires i < |embs| && from <= to <= |embs|
    decreases |embs| - from
  {
    if from == to then 0
    else (if ClosePair(d, embs, i, from) then 1 else 0) + CloseBetween(d, embs, i, from + 1, to)
  }

  /** The pair is close, and among the first 50 close ones of its earlier memory. */
  predicate Linkable(d: Detector, embs: seq<Labelled>, i: nat, j: nat) {
    && i < j < |embs| && ClosePair(d, embs, i, j)
    && CloseBetween(d, embs, i, i + 1, j) < 50
  }

  /** `l` is one direction of the link of the pair. */
  predicate LinkOf(d: Detector, embs: seq<Labelled>, i: nat, j: nat, l: Link)
    requires i < |embs| && j < |embs|
  {
    && l.weight == Cosine(d.sqrt, embs[i].1, embs[j].1)
    && (l.key == LinkKey(embs[i].0, embs[j].0, SemanticSimilar) || l.key == LinkKey(embs[j].0, embs[i].0, SemanticSimilar))
  }

  lemma {:induction false} InPair(d: Detector, embs: seq<Labelled>, i: nat, j: nat, l: Link)
    requires i < |embs| && j < |embs|
    ensures l in Pair(embs[i].0, embs[j].0, d.Sim(embs[i].1, embs[j].1)) <==> LinkOf(d, embs, i, j, l)
  {
  }

  ghost predicate InRow(d: Detector, embs: seq<Labelled>, i: nat, j: nat, n: nat, l: Link)
    requires i < |embs|
  {
    exists k: nat :: j <= k < |embs| && ClosePair(d, embs, i, k) && n + CloseBetween(d, embs, i, j, k) < 50 && LinkOf(d, embs, i, k, l)
  }

  lemma {:induction false} RowWritesExactly(d: Detector, embs: seq<Labelled>, i: nat, j: nat, n: nat, l: Link)
    requires i < |embs| && j <= |embs|
    ensures l in RowWrites(d, embs, i, j, n) <==> InRow(d, embs, i, j, n, l)
    decreases |embs| - j
  {
    if j < |embs| && n < MAX_LINKS {
      var close := ClosePair(d, embs, i, j);
      var next := if close then n + 1 else n;
      RowWritesExactly(d, embs, i, j + 1, next, l);
      RowNext(d, embs, i, j, n, l);
      InPair(d, embs, i, j, l);
    }
  }

  /** The first memory of a row, then the others. */
  lemma {:induction false} RowNext(d: Detector, embs: seq<Labelled>, i: nat, j: nat, n: nat, l: Link)
    requires i < |embs| && j < |embs| && n < 50
    ensures
      var close := ClosePair(d, embs, i, j);
      InRow(d, embs, i, j, n, l)
      <==> (close && LinkOf(d, embs, i, j, l)) || InRow(d, embs, i, j + 1, if close then n + 1 else n, l)
  {
    var close := ClosePair(d, embs, i, j);
    var next := if close then n + 1 else n;
    forall k: nat | j < k < |embs| ensures n + CloseBetween(d, embs, i, j, k) == next + CloseBetween(d, embs, i, j + 1, k) {
    }
    if k: nat :| j + 1 <= k < |embs| && ClosePair(d, embs, i, k) && next + CloseBetween(d, embs, i, j + 1, k) < 50 && LinkOf(d, embs, i, k, l) {
      assert n + CloseBetween(d, embs, i, j, k) < 50;
    }
    if close && LinkOf(d, embs, i, j, l) {
      assert CloseBetween(d, embs, i, j, j) == 0;
    }
  }

  ghost predicate InAll(d: Detector, embs: seq<Labelled>, from: nat, l: Link) {
    exists i: nat, j: nat :: from <= i && Linkable(d, embs, i, j) && LinkOf(d, embs, i, j, l)
  }

  lemma {:induction false} AllWritesExactly(d: Detector, embs: seq<Labelled>, from: nat, l: Link)
    ensures l in AllWrites(d, embs, from) <==> InAll(d, embs, from, l)
    decreases |embs| - from
  {
    if from < |embs| {
      AllWritesExactly(d, embs, from + 1, l);
      RowWritesExactly(d, embs, from, from + 1, 0, l);
      if InRow(d, embs, from, from + 1, 0, l) {
        var k: nat :| from + 1 <= k < |embs| && ClosePair(d, embs, from, k)
              && 0 + CloseBetween(d, embs, from, from + 1, k) < 50 && LinkOf(d, embs, from, k, l);
        assert Linkable(d, embs, from, k);
      }
      if InAll(d, embs, from, l) {
        var i: nat, j: nat :| from <= i && Linkable(d, embs, i, j) && LinkOf(d, embs, i, j, l);
        if i == from {
          assert 0 + CloseBetween(d, embs, from, from + 1, j) < 50;
        }
      }
    }
  }

  /** A detection writes a link exactly when it joins, in either direction and with their similarity, two
      candidates whose similarity reaches the threshold and of which the later one is among the first 50
      such of the earlier one. */
  lemma {:induction false} LinksExactlyWhen(d: Detector, embs: seq<Labelled>, l: Link)
    ensures l in AllWrites(d, embs, 0)
      <==> exists i: nat, j: nat :: Linkable(d, embs, i, j) && LinkOf(d, embs, i, j, l)
  {
    AllWritesExactly(d, embs, 0, l);
  }
}

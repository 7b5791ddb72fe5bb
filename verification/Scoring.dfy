/** Reciprocal rank fusion (crates/rustykrab-memory/src/scoring.rs), over the reals.

    Both fusion functions are methods over hash maps whose iteration order is arbitrary, proved
    against one specification, `IsFusion`.  Any two results that meet it agree up to the order of
    equal scores; no score is lost; and with distinct identifiers in each list no score exceeds
    the normaliser `recall` divides by. */
module Scoring {
  import opened MemoryTypes
  import opened Ranking
  import opened Seqs

  type Ranks = seq<(Id, nat)>

  datatype WeightedList = WeightedList(items: Ranks, weight: real)
  datatype SourceList = SourceList(list: WeightedList, source: RetrievalSource)

  datatype Scored = Scored(id: Id, score: real)
  datatype Fused = Fused(id: Id, score: real, sources: seq<RetrievalSource>)

  // ---- The specification -------------------------------------------------------------------

  /** `k + rank` is never zero: `k` is no negative whole number and not 0. */
  predicate NoZero(k: real) {
    k > 0.0 || k.Floor as real != k
  }

  /** No division by zero; true of every list when `NoZero(k)`. */
  ghost predicate Divisible(items: Ranks, k: real) {
    forall i :: 0 <= i < |items| ==> k + items[i].1 as real != 0.0
  }

  ghost predicate AllDivisible(lists: seq<WeightedList>, k: real) {
    forall i :: 0 <= i < |lists| ==> Divisible(lists[i].items, k)
  }

  lemma {:induction false} NeverZero(k: real, rank: nat)
    requires NoZero(k)
    ensures k + rank as real != 0.0
  {
    if k + rank as real == 0.0 {
      assert k == (0 - rank) as real;
      assert ((0 - rank) as real).Floor == 0 - rank;
    }
  }

  lemma {:induction false} AlwaysDivisible(lists: seq<WeightedList>, k: real)
    requires NoZero(k)
    ensures AllDivisible(lists, k)
  {
    forall i, j | 0 <= i < |lists| && 0 <= j < |lists[i].items| ensures k + lists[i].items[j].1 as real != 0.0 {
      NeverZero(k, lists[i].items[j].1);
    }
  }

  predicate Lists(items: Ranks, id: Id) {
    exists i :: 0 <= i < |items| && items[i].0 == id
  }

  ghost predicate Mentions(lists: seq<WeightedList>, id: Id) {
    exists i :: 0 <= i < |lists| && Lists(lists[i].items, id)
  }

  /** What one list contributes to `id`. */
  function ListScore(items: Ranks, weight: real, k: real, id: Id): real
    requires Divisible(items, k)
  {
    if items == [] then 0.0
    else
      var n := |items| - 1;
      ListScore(items[..n], weight, k, id)
      + if items[n].0 == id then weight / (k + items[n].1 as real) else 0.0
  }

  /** The reciprocal rank score of `id`. */
  function Score(lists: seq<WeightedList>, k: real, id: Id): real
    requires AllDivisible(lists, k)
  {
    if lists == [] then 0.0
    else
      var n := |lists| - 1;
      Score(lists[..n], k, id) + ListScore(lists[n].items, lists[n].weight, k, id)
  }

  function IdOf(s: Scored): Id { s.id }
  function ScoreOf(s: Scored): real { s.score }

  /** Every mentioned identifier once, with its score, in descending order of score. */
  ghost predicate IsFusion(results: seq<Scored>, lists: seq<WeightedList>, k: real)
    requires AllDivisible(lists, k)
  {
    && Distinct(Map(IdOf, results))
    && (forall i :: 0 <= i < |results| ==> results[i].score == Score(lists, k, results[i].id))
    && (forall id :: Mentions(lists, id) <==> id in Map(IdOf, results))
    && Descending(results, ScoreOf)
  }

  // ---- `rrf_fuse` --------------------------------------------------------------------------

  ghost predicate Tallies(scores: map<Id, real>, lists: seq<WeightedList>, k: real)
    requires AllDivisible(lists, k)
  {
    && (forall id :: id in scores <==> Mentions(lists, id))
    && (forall id :: id in scores ==> scores[id] == Score(lists, k, id))
  }

  lemma {:induction false} UnlistedScoresNothing(items: Ranks, weight: real, k: real, id: Id)
    requires Divisible(items, k) && !Lists(items, id)
    ensures ListScore(items, weight, k, id) == 0.0
  {
    if items != [] {
      var n := |items| - 1;
      assert forall i :: 0 <= i < n ==> items[..n][i] == items[i];
      UnlistedScoresNothing(items[..n], weight, k, id);
    }
  }

  lemma {:induction false} UnmentionedScoresNothing(lists: seq<WeightedList>, k: real, id: Id)
    requires AllDivisible(lists, k) && !Mentions(lists, id)
    ensures Score(lists, k, id) == 0.0
  {
    if lists != [] {
      var n := |lists| - 1;
      assert forall i :: 0 <= i < n ==> lists[..n][i] == lists[i];
      UnmentionedScoresNothing(lists[..n], k, id);
      assert !Lists(lists[n].items, id);
      UnlistedScoresNothing(lists[n].items, lists[n].weight, k, id);
    }
  }

  lemma {:induction false} ListsSnoc(items: Ranks, n: nat, id: Id)
    requires n < |items|
    ensures Lists(items[..n + 1], id) <==> Lists(items[..n], id) || items[n].0 == id
  {
    var a, b := items[..n], items[..n + 1];
    assert forall i :: 0 <= i < n ==> a[i] == b[i];
    assert b[n] == items[n];
    if Lists(a, id) {
      var i :| 0 <= i < |a| && a[i].0 == id;
      assert b[i].0 == id;
    }
  }

  lemma {:induction false} MentionsSnoc(lists: seq<WeightedList>, n: nat, id: Id)
    requires n < |lists|
    ensures Mentions(lists[..n + 1], id) <==> Mentions(lists[..n], id) || Lists(lists[n].items, id)
  {
    var a, b := lists[..n], lists[..n + 1];
    assert forall i :: 0 <= i < n ==> a[i] == b[i];
    assert b[n] == lists[n];
    if Mentions(a, id) {
      var i :| 0 <= i < |a| && Lists(a[i].items, id);
      assert Lists(b[i].items, id);
    }
  }

  ghost predicate AddsList(before: map<Id, real>, after: map<Id, real>, items: Ranks, weight: real, k: real)
    requires Divisible(items, k)
  {
    && (forall id :: id in after <==> id in before || Lists(items, id))
    && (forall id :: id in after ==>
          after[id] == (if id in before then before[id] else 0.0) + ListScore(items, weight, k, id))
  }

  lemma {:induction false} AddsOne(before: map<Id, real>, now: map<Id, real>, items: Ranks, weight: real, k: real,
        n: nat)
    requires Divisible(items, k) && n < |items|
    requires AddsList(before, now, items[..n], weight, k)
    ensures
      var (id, rank) := items[n];
      AddsList(before, now[id := (if id in now then now[id] else 0.0) + weight / (k + rank as real)],
               items[..n + 1], weight, k)
  {
    var (id, rank) := items[n];
    var after := now[id := (if id in now then now[id] else 0.0) + weight / (k + rank as real)];
    assert items[..n + 1][..n] == items[..n];
    forall x ensures x in after <==> x in before || Lists(items[..n + 1], x) {
      ListsSnoc(items, n, x);
    }
    forall x | x in after
      ensures after[x] == (if x in before then before[x] else 0.0) + ListScore(items[..n + 1], weight, k, x)
    {
      ListsSnoc(items, n, x);
      if x !in now {
        UnlistedScoresNothing(items[..n], weight, k, x);
      }
    }
  }

  /** The inner loop of both fusion functions. */
  method AddList(before: map<Id, real>, items: Ranks, weight: real, k: real)
    returns (scores: map<Id, real>)
    requires Divisible(items, k)
    ensures AddsList(before, scores, items, weight, k)
  {
    scores := before;
    for i := 0 to |items|
      invariant AddsList(before, scores, items[..i], weight, k)
    {
      AddsOne(before, scores, items, weight, k, i);
      var (id, rank) := items[i];
      scores := scores[id := (if id in scores then scores[id] else 0.0) + weight / (k + rank as real)];
    }
    assert items[..|items|] == items;
  }

  lemma {:induction false} TalliesSnoc(before: map<Id, real>, after: map<Id, real>, lists: seq<WeightedList>,
        k: real, n: nat)
    requires AllDivisible(lists, k) && n < |lists|
    requires Tallies(before, lists[..n], k)
    requires AddsList(before, after, lists[n].items, lists[n].weight, k)
    ensures Tallies(after, lists[..n + 1], k)
  {
    assert lists[..n + 1][..n] == lists[..n] && lists[..n + 1][n] == lists[n];
    forall id ensures id in after <==> Mentions(lists[..n + 1], id) {
      MentionsSnoc(lists, n, id);
    }
    forall id | id in after ensures after[id] == Score(lists[..n + 1], k, id) {
      if id !in before {
        UnmentionedScoresNothing(lists[..n], k, id);
      }
    }
  }

  /** `scores.into_iter().collect()`: the entries in whatever order the map yields them. */
  method Drain(scores: map<Id, real>) returns (rows: seq<Scored>)
    ensures Distinct(Map(IdOf, rows))
    ensures forall id :: id in scores <==> id in Map(IdOf, rows)
    ensures forall i :: 0 <= i < |rows| ==> rows[i].id in scores && rows[i].score == scores[rows[i].id]
  {
    var left := scores.Keys;
    rows := [];
    while left != {}
      invariant left <= scores.Keys
      invariant Distinct(Map(IdOf, rows))
      invariant forall id :: id in Map(IdOf, rows) <==> id in scores && id !in left
      invariant forall i :: 0 <= i < |rows| ==> rows[i].id in scores && rows[i].score == scores[rows[i].id]
      decreases |left|
    {
      var id :| id in left;
      ghost var ids := Map(IdOf, rows);
      left := left - {id};
      rows := rows + [Scored(id, scores[id])];
      assert Map(IdOf, rows) == ids + [id];
    }
  }

  lemma {:induction false} SortedTallyIsFusion(rows: seq<Scored>, scores: map<Id, real>, lists: seq<WeightedList>,
        k: real)
    requires AllDivisible(lists, k) && Tallies(scores, lists, k)
    requires Distinct(Map(IdOf, rows))
    requires forall id :: id in scores <==> id in Map(IdOf, rows)
    requires forall i :: 0 <= i < |rows| ==> rows[i].id in scores && rows[i].score == scores[rows[i].id]
    ensures IsFusion(SortDesc(rows, ScoreOf), lists, k)
  {
    var sorted := SortDesc(rows, ScoreOf);
    SortDescSorts(rows, ScoreOf);
    SortKeepsMapped(rows, ScoreOf, IdOf);
    SortKeepsAll(rows, ScoreOf, (s: Scored) => s.id in scores && s.score == scores[s.id]);
    SameElements(Map(IdOf, rows), Map(IdOf, sorted));
  }

  method RrfFuse(lists: seq<WeightedList>, k: real) returns (results: seq<Scored>)
    requires AllDivisible(lists, k)
    ensures IsFusion(results, lists, k)
  {
    var scores: map<Id, real> := map[];
    for i := 0 to |lists|
      invariant Tallies(scores, lists[..i], k)
    {
      var before := scores;
      scores := AddList(before, lists[i].items, lists[i].weight, k);
      TalliesSnoc(before, scores, lists, k, i);
    }
    assert lists[..|lists|] == lists;
    var rows := Drain(scores);
    SortedTallyIsFusion(rows, scores, lists, k);
    results := SortDesc(rows, ScoreOf);
  }

  // ---- `rrf_fuse_with_sources` -------------------------------------------------------------

  function Bare(lists: seq<SourceList>): (r: seq<WeightedList>)
    ensures |r| == |lists| && forall i :: 0 <= i < |r| ==> r[i] == lists[i].list
  {
    seq(|lists|, i requires 0 <= i < |lists| => lists[i].list)
  }

  /** One tag per occurrence. */
  function ListSources(items: Ranks, source: RetrievalSource, id: Id): seq<RetrievalSource> {
    if items == [] then []
    else
      var n := |items| - 1;
      ListSources(items[..n], source, id) + if items[n].0 == id then [source] else []
  }

  function SourcesOf(lists: seq<SourceList>, id: Id): seq<RetrievalSource> {
    if lists == [] then []
    else
      var n := |lists| - 1;
      SourcesOf(lists[..n], id) + ListSources(lists[n].list.items, lists[n].source, id)
  }

  function Tags(sources: map<Id, seq<RetrievalSource>>, id: Id): seq<RetrievalSource> {
    if id in sources then sources[id] else []
  }

  lemma {:induction false} SourcesSnoc(items: Ranks, source: RetrievalSource, n: nat, id: Id)
    requires n < |items|
    ensures ListSources(items[..n + 1], source, id)
      == ListSources(items[..n], source, id) + if items[n].0 == id then [source] else []
  {
    assert items[..n + 1][..n] == items[..n];
  }

  function Tag(sources: map<Id, seq<RetrievalSource>>, id: Id, source: RetrievalSource): map<Id, seq<RetrievalSource>> {
    sources[id := Tags(sources, id) + [source]]
  }

  lemma {:induction false} TagStep(now: map<Id, seq<RetrievalSource>>, start: seq<RetrievalSource>, items: Ranks,
        source: RetrievalSource, n: nat, id: Id)
    requires n < |items|
    requires Tags(now, id) == start + ListSources(items[..n], source, id)
    ensures Tags(Tag(now, items[n].0, source), id) == start + ListSources(items[..n + 1], source, id)
  {
    SourcesSnoc(items, source, n, id);
    var done := ListSources(items[..n], source, id);
    Assoc(start, done, [source]);
    assert done + [] == done;
  }

  method TagList(before: map<Id, seq<RetrievalSource>>, items: Ranks, source: RetrievalSource)
    returns (sources: map<Id, seq<RetrievalSource>>)
    ensures forall id :: Tags(sources, id) == Tags(before, id) + ListSources(items, source, id)
  {
    sources := before;
    for i := 0 to |items|
      invariant forall id :: Tags(sources, id) == Tags(before, id) + ListSources(items[..i], source, id)
    {
      forall id ensures
        Tags(Tag(sources, items[i].0, source), id) == Tags(before, id) + ListSources(items[..i + 1], source, id)
      {
        TagStep(sources, Tags(before, id), items, source, i, id);
      }
      sources := Tag(sources, items[i].0, source);
    }
    assert items[..|items|] == items;
  }

  function Erased(results: seq<Fused>): (r: seq<Scored>)
    ensures |r| == |results|
    ensures forall i :: 0 <= i < |r| ==> r[i] == Scored(results[i].id, results[i].score)
  {
    seq(|results|, i requires 0 <= i < |results| => Scored(results[i].id, results[i].score))
  }

  /** Erasing the sources leaves a fusion of the bare lists, so the two functions score alike. */
  method RrfFuseWithSources(lists: seq<SourceList>, k: real) returns (results: seq<Fused>)
    requires AllDivisible(Bare(lists), k)
    ensures IsFusion(Erased(results), Bare(lists), k)
    ensures forall i :: 0 <= i < |results| ==> results[i].sources == SourcesOf(lists, results[i].id)
  {
    var scores: map<Id, real> := map[];
    var sources: map<Id, seq<RetrievalSource>> := map[];
    for i := 0 to |lists|
      invariant Tallies(scores, Bare(lists)[..i], k)
      invariant forall id :: Tags(sources, id) == SourcesOf(lists[..i], id)
    {
      var before := scores;
      scores := AddList(before, lists[i].list.items, lists[i].list.weight, k);
      TalliesSnoc(before, scores, Bare(lists), k, i);
      assert lists[..i + 1][..i] == lists[..i];
      sources := TagList(sources, lists[i].list.items, lists[i].source);
    }
    assert Bare(lists)[..|lists|] == Bare(lists) && lists[..|lists|] == lists;
    var rows := Drain(scores);
    SortedTallyIsFusion(rows, scores, Bare(lists), k);
    var sorted := SortDesc(rows, ScoreOf);
    results := seq(|sorted|, i requires 0 <= i < |sorted| =>
      Fused(sorted[i].id, sorted[i].score, Tags(sources, sorted[i].id)));
    assert Erased(results) == sorted;
  }

  // ---- What fusion promises ----------------------------------------------------------------

  lemma {:induction false} RowsAreDistinct(rows: seq<Scored>)
    requires Distinct(Map(IdOf, rows))
    ensures Distinct(rows)
  {
    forall i, j | 0 <= i < j < |rows| ensures rows[i] != rows[j] {
      assert Map(IdOf, rows)[i] != Map(IdOf, rows)[j];
    }
  }

  lemma {:induction false} FusionMember(a: seq<Scored>, b: seq<Scored>, lists: seq<WeightedList>, k: real, row: Scored)
    requires AllDivisible(lists, k) && IsFusion(a, lists, k) && IsFusion(b, lists, k)
    requires row in a
    ensures row in b
  {
    var i :| 0 <= i < |a| && a[i] == row;
    assert Map(IdOf, a)[i] == row.id;
    assert Mentions(lists, row.id);
    var j :| 0 <= j < |b| && Map(IdOf, b)[j] == row.id;
    assert b[j] == row;
  }

  lemma {:induction false} MapAround<A, B>(f: A -> B, front: seq<A>, x: A, back: seq<A>)
    ensures multiset(Map(f, front + [x] + back)) == multiset{f(x)} + multiset(Map(f, front + back))
  {
    assert Map(f, front + [x] + back) == Map(f, front) + [f(x)] + Map(f, back);
    assert Map(f, front + back) == Map(f, front) + Map(f, back);
  }

  lemma {:induction false} TakeOut<T>(front: seq<T>, x: T, back: seq<T>)
    ensures multiset(front + [x] + back) == multiset{x} + multiset(front + back)
  {
  }

  lemma {:induction false} CancelOne<T>(x: T, m: multiset<T>, n: multiset<T>)
    requires multiset{x} + m == multiset{x} + n
    ensures m == n
  {
    assert multiset{x} + m - multiset{x} == m;
    assert multiset{x} + n - multiset{x} == n;
  }

  lemma {:induction false} MapRespectsElements<A, B>(f: A -> B, a: seq<A>, b: seq<A>)
    requires multiset(a) == multiset(b)
    ensures multiset(Map(f, a)) == multiset(Map(f, b))
    decreases |a|
  {
    if a == [] {
      assert |multiset(b)| == 0;
    } else {
      var x, rest := a[0], a[1..];
      assert x in multiset(a);
      var i :| 0 <= i < |b| && b[i] == x;
      var front, back := b[..i], b[i + 1..];
      assert a == [] + [x] + rest && b == front + [x] + back;
      TakeOut([], x, rest);
      TakeOut(front, x, back);
      CancelOne(x, multiset([] + rest), multiset(front + back));
      MapRespectsElements(f, [] + rest, front + back);
      MapAround(f, [], x, rest);
      MapAround(f, front, x, back);
    }
  }

  lemma {:induction false} SameRows(a: seq<Scored>, b: seq<Scored>, lists: seq<WeightedList>, k: real)
    requires AllDivisible(lists, k) && IsFusion(a, lists, k) && IsFusion(b, lists, k)
    ensures multiset(a) == multiset(b)
  {
    RowsAreDistinct(a);
    RowsAreDistinct(b);
    forall row: Scored ensures multiset(a)[row] == multiset(b)[row] {
      DistinctCounts(a, row);
      DistinctCounts(b, row);
      if row in a { FusionMember(a, b, lists, k, row); }
      if row in b { FusionMember(b, a, lists, k, row); }
    }
  }

  /** Whatever order the hash map iterates in, two fusions of the same lists hold the same rows and
      list the same scores; only rows of equal score can be exchanged. */
  lemma {:induction false} FusionsAgree(a: seq<Scored>, b: seq<Scored>, lists: seq<WeightedList>, k: real)
    requires AllDivisible(lists, k) && IsFusion(a, lists, k) && IsFusion(b, lists, k)
    ensures multiset(a) == multiset(b)
    ensures Map(ScoreOf, a) == Map(ScoreOf, b)
  {
    SameRows(a, b, lists, k);
    MapRespectsElements(ScoreOf, a, b);
    FallingIsUnique(Map(ScoreOf, a), Map(ScoreOf, b));
  }

  function ListTotal(items: Ranks, weight: real, k: real): real
    requires Divisible(items, k)
  {
    if items == [] then 0.0
    else
      var n := |items| - 1;
      ListTotal(items[..n], weight, k) + weight / (k + items[n].1 as real)
  }

  /** `w / (k + rank)` summed over all entries of all lists. */
  function EntryTotal(lists: seq<WeightedList>, k: real): real
    requires AllDivisible(lists, k)
  {
    if lists == [] then 0.0
    else
      var n := |lists| - 1;
      EntryTotal(lists[..n], k) + ListTotal(lists[n].items, lists[n].weight, k)
  }

  function Sum(xs: seq<real>): real {
    if xs == [] then 0.0 else xs[0] + Sum(xs[1..])
  }

  lemma {:induction false} SumOfSums(xs: seq<real>, ys: seq<real>, zs: seq<real>)
    requires |xs| == |ys| == |zs|
    requires forall i :: 0 <= i < |xs| ==> zs[i] == xs[i] + ys[i]
    ensures Sum(zs) == Sum(xs) + Sum(ys)
  {
    if xs != [] {
      SumOfSums(xs[1..], ys[1..], zs[1..]);
    }
  }

  lemma {:induction false} SumOfNothing(xs: seq<real>)
    requires forall i :: 0 <= i < |xs| ==> xs[i] == 0.0
    ensures Sum(xs) == 0.0
  {
    if xs != [] {
      SumOfNothing(xs[1..]);
    }
  }

  function At(ids: seq<Id>, id: Id, share: real): (r: seq<real>)
    ensures |r| == |ids|
    ensures forall i :: 0 <= i < |r| ==> r[i] == if ids[i] == id then share else 0.0
  {
    seq(|ids|, i requires 0 <= i < |ids| => if ids[i] == id then share else 0.0)
  }

  lemma {:induction false} SumAtOne(ids: seq<Id>, id: Id, share: real)
    requires Distinct(ids) && id in ids
    ensures Sum(At(ids, id, share)) == share
  {
    assert At(ids, id, share)[1..] == At(ids[1..], id, share);
    if ids[0] == id {
      SumOfNothing(At(ids[1..], id, share));
    } else {
      assert ids == [ids[0]] + ids[1..];
      SumAtOne(ids[1..], id, share);
    }
  }

  function ListShares(ids: seq<Id>, items: Ranks, weight: real, k: real): (r: seq<real>)
    requires Divisible(items, k)
    ensures |r| == |ids| && forall i :: 0 <= i < |r| ==> r[i] == ListScore(items, weight, k, ids[i])
  {
    seq(|ids|, i requires 0 <= i < |ids| => ListScore(items, weight, k, ids[i]))
  }

  lemma {:induction false} ListSharesTotal(ids: seq<Id>, items: Ranks, weight: real, k: real)
    requires Divisible(items, k) && Distinct(ids)
    requires forall i :: 0 <= i < |items| ==> items[i].0 in ids
    ensures Sum(ListShares(ids, items, weight, k)) == ListTotal(items, weight, k)
  {
    var shares := ListShares(ids, items, weight, k);
    if items == [] {
      SumOfNothing(shares);
    } else {
      var n := |items| - 1;
      var share := weight / (k + items[n].1 as real);
      ListSharesTotal(ids, items[..n], weight, k);
      SumAtOne(ids, items[n].0, share);
      SumOfSums(ListShares(ids, items[..n], weight, k), At(ids, items[n].0, share), shares);
    }
  }

  function Scores(ids: seq<Id>, lists: seq<WeightedList>, k: real): (r: seq<real>)
    requires AllDivisible(lists, k)
    ensures |r| == |ids| && forall i :: 0 <= i < |r| ==> r[i] == Score(lists, k, ids[i])
  {
    seq(|ids|, i requires 0 <= i < |ids| => Score(lists, k, ids[i]))
  }

  lemma {:induction false} ScoresTotal(ids: seq<Id>, lists: seq<WeightedList>, k: real)
    requires AllDivisible(lists, k) && Distinct(ids)
    requires forall id :: Mentions(lists, id) ==> id in ids
    ensures Sum(Scores(ids, lists, k)) == EntryTotal(lists, k)
  {
    var scores := Scores(ids, lists, k);
    if lists == [] {
      SumOfNothing(scores);
    } else {
      var n := |lists| - 1;
      var last := lists[n];
      forall id | Mentions(lists[..n], id) ensures id in ids {
        var i :| 0 <= i < n && Lists(lists[..n][i].items, id);
        assert Lists(lists[i].items, id);
        assert Mentions(lists, id);
      }
      ScoresTotal(ids, lists[..n], k);
      forall i | 0 <= i < |last.items| ensures last.items[i].0 in ids {
        assert Lists(lists[n].items, last.items[i].0);
        assert Mentions(lists, last.items[i].0);
      }
      ListSharesTotal(ids, last.items, last.weight, k);
      SumOfSums(Scores(ids, lists[..n], k), ListShares(ids, last.items, last.weight, k), scores);
    }
  }

  /** Fusion loses and invents nothing: the scores add up to the contributions of all entries. */
  lemma {:induction false} TotalIsConserved(results: seq<Scored>, lists: seq<WeightedList>, k: real)
    requires AllDivisible(lists, k) && IsFusion(results, lists, k)
    ensures Sum(Map(ScoreOf, results)) == EntryTotal(lists, k)
  {
    var ids := Map(IdOf, results);
    ScoresTotal(ids, lists, k);
    assert Map(ScoreOf, results) == Scores(ids, lists, k);
  }

  function RankedIds(items: Ranks): (r: seq<Id>)
    ensures |r| == |items| && forall i :: 0 <= i < |r| ==> r[i] == items[i].0
  {
    seq(|items|, i requires 0 <= i < |items| => items[i].0)
  }

  /** What `recall` hands to fusion: each arm lists an identifier at most once. */
  ghost predicate Arms(lists: seq<WeightedList>) {
    forall i :: 0 <= i < |lists| ==> Distinct(RankedIds(lists[i].items)) && lists[i].weight >= 0.0
  }

  function TotalWeight(lists: seq<WeightedList>): real {
    if lists == [] then 0.0 else TotalWeight(lists[..|lists| - 1]) + lists[|lists| - 1].weight
  }

  lemma {:induction false} ShareIsBounded(weight: real, k: real, rank: nat)
    requires weight >= 0.0 && k > 0.0
    ensures 0.0 <= weight / (k + rank as real) <= weight / k
  {
    var d := k + rank as real;
    assert weight / d * d == weight && weight / k * k == weight;
    if weight / d > weight / k {
      assert weight / d * d >= weight / d * k > weight / k * k;
    }
  }

  lemma {:induction false} ListScoreIsBounded(items: Ranks, weight: real, k: real, id: Id)
    requires k > 0.0 && weight >= 0.0 && Divisible(items, k) && Distinct(RankedIds(items))
    ensures 0.0 <= ListScore(items, weight, k, id) <= weight / k
  {
    if items == [] {
      ShareIsBounded(weight, k, 0);
    } else {
      var n := |items| - 1;
      assert RankedIds(items[..n]) == RankedIds(items)[..n];
      ListScoreIsBounded(items[..n], weight, k, id);
      ShareIsBounded(weight, k, items[n].1);
      if items[n].0 == id {
        forall i | 0 <= i < n ensures items[..n][i].0 != id {
          assert RankedIds(items)[i] != RankedIds(items)[n];
        }
        UnlistedScoresNothing(items[..n], weight, k, id);
      }
    }
  }

  lemma {:induction false} Cancel(x: real, y: real, k: real)
    requires k > 0.0 && x * k == y * k
    ensures x == y
  {
    assert (x - y) * k == 0.0;
  }

  lemma {:induction false} DivideSum(x: real, y: real, k: real)
    requires k > 0.0
    ensures (x + y) / k == x / k + y / k
  {
    assert (x / k + y / k) * k == x + y;
    Cancel((x + y) / k, x / k + y / k, k);
  }

  lemma {:induction false} ScoreIsBounded(lists: seq<WeightedList>, k: real, id: Id)
    requires k > 0.0 && AllDivisible(lists, k) && Arms(lists)
    ensures 0.0 <= Score(lists, k, id) <= TotalWeight(lists) / k
  {
    if lists != [] {
      var n := |lists| - 1;
      assert forall i :: 0 <= i < n ==> lists[..n][i] == lists[i];
      ScoreIsBounded(lists[..n], k, id);
      ListScoreIsBounded(lists[n].items, lists[n].weight, k, id);
      DivideSum(TotalWeight(lists[..n]), lists[n].weight, k);
    }
  }

  function Min(x: real, y: real): real { if x <= y then x else y }

  /** `recall`'s normalisation of a fused score. */
  function Normalized(score: real, totalWeight: real, k: real): real
    requires k != 0.0
  {
    var maxRrf := totalWeight / k;
    if maxRrf > 0.0 then Min(score / maxRrf, 1.0) else 0.0
  }

  lemma {:induction false} Fraction(part: real, whole: real)
    requires 0.0 <= part <= whole && whole > 0.0
    ensures 0.0 <= part / whole <= 1.0 && part / whole * whole == part
  {
    var f := part / whole;
    assert f * whole == part;
    assert (1.0 - f) * whole == whole - part;
  }

  /** With positive `k` and non-negative weights the clamp at 1 never changes a score: what `recall`
      multiplies by is the score as a fraction of the largest possible one. */
  lemma {:induction false} ClampNeverFires(lists: seq<WeightedList>, k: real, id: Id)
    requires k > 0.0 && AllDivisible(lists, k) && Arms(lists)
    ensures
      var maxRrf := TotalWeight(lists) / k;
      && 0.0 <= Normalized(Score(lists, k, id), TotalWeight(lists), k) <= 1.0
      && Normalized(Score(lists, k, id), TotalWeight(lists), k) * maxRrf == Score(lists, k, id)
  {
    ScoreIsBounded(lists, k, id);
    var maxRrf, score := TotalWeight(lists) / k, Score(lists, k, id);
    if maxRrf > 0.0 {
      Fraction(score, maxRrf);
    }
  }
}

/** What the arms of a recall list, in what order, and which arms a candidate is said to come from
    (crates/rustykrab-memory/src/retrieval.rs and scoring.rs), told from what the arms have read. */
module Arms {
  import opened MemoryTypes
  import opened Ranking
  import opened Scoring
  import opened Similarity
  import opened Storage
  import opened Retrieval

  // ---- The semantic arm: nearest first -----------------------------------------------------

  /** `ids[p]` is the first occurrence of `id`. */
  predicate FirstAt<T(==)>(ids: seq<T>, id: T, p: nat) {
    p < |ids| && ids[p] == id && id !in ids[..p]
  }

  lemma {:induction false} DedupedKeepsOrder(ids: seq<Id>, limit: nat, i: nat, j: nat) returns (p: nat, q: nat)
    requires i < j < |Deduped(ids, limit)|
    ensures p < q && FirstAt(ids, Deduped(ids, limit)[i], p) && FirstAt(ids, Deduped(ids, limit)[j], q)
    decreases |ids|
  {
    var n := |ids| - 1;
    var d := Deduped(ids[..n], limit);
    if j < |d| {
      p, q := DedupedKeepsOrder(ids[..n], limit, i, j);
      assert ids[..n][..p] == ids[..p] && ids[..n][..q] == ids[..q];
    } else {
      p := DedupedStart(ids[..n], limit, i);
      q := n;
      assert ids[..n][..p] == ids[..p];
      if ids[n] in ids[..n] {
        var k :| 0 <= k < n && ids[..n][k] == ids[n];
        DedupedIsComplete(ids[..n], limit, k);
      }
    }
  }

  lemma {:induction false} DedupedStart(ids: seq<Id>, limit: nat, i: nat) returns (p: nat)
    requires i < |Deduped(ids, limit)|
    ensures FirstAt(ids, Deduped(ids, limit)[i], p)
    decreases |ids|
  {
    var n := |ids| - 1;
    var d := Deduped(ids[..n], limit);
    if i < |d| {
      p := DedupedStart(ids[..n], limit, i);
      assert ids[..n][..p] == ids[..p];
    } else {
      p := n;
      if ids[n] in ids[..n] {
        var k :| 0 <= k < n && ids[..n][k] == ids[n];
        DedupedIsComplete(ids[..n], limit, k);
      }
    }
  }

  /** A memory ranks before another in the semantic arm only when its nearest chunk does. */
  lemma {:induction false} NearestRanksFirst(sqrt: real -> real, query: Embedding, chunks: seq<Chunk>, limit: nat,
        i: nat, j: nat) returns (p: nat, q: nat)
    requires i < j < |SemanticArm(sqrt, query, chunks, limit)|
    ensures
      var arm := SemanticArm(sqrt, query, chunks, limit);
      var nearest := Nearest(sqrt, query, chunks, limit * 2);
      p < q && FirstAt(nearest, arm[i].0, p) && FirstAt(nearest, arm[j].0, q)
  {
    p, q := DedupedKeepsOrder(Nearest(sqrt, query, chunks, limit * 2), limit, i, j);
  }

  // ---- The graph arm: heaviest first -------------------------------------------------------

  predicate Place(rows: seq<seq<Link>>, i: nat, j: nat) {
    i < |rows| && j < |rows[i]|
  }

  ghost predicate Targets(rows: seq<seq<Link>>, id: Id) {
    exists i: nat, j: nat :: Place(rows, i, j) && rows[i][j].key.target == id
  }

  /** The link at (i, j) is the first to its target, which is not one of the seeds up to its own. */
  ghost predicate Leads(seeds: seq<Id>, rows: seq<seq<Link>>, i: nat, j: nat)
    requires |seeds| == |rows| && Place(rows, i, j)
  {
    && rows[i][j].key.target !in seeds[..i + 1]
    && forall a: nat, b: nat :: Place(rows, a, b) && (a < i || (a == i && b < j)) ==>
         rows[a][b].key.target != rows[i][j].key.target
  }

  /** The seeds lead to `id` first by a link of this weight. */
  ghost predicate Weighs(seeds: seq<Id>, rows: seq<seq<Link>>, id: Id, weight: real)
    requires |seeds| == |rows|
  {
    exists i: nat, j: nat :: Place(rows, i, j) && rows[i][j].key.target == id && rows[i][j].weight == weight
      && Leads(seeds, rows, i, j)
  }

  ghost predicate Expanded(e: Expansion, seeds: seq<Id>, rows: seq<seq<Link>>)
    requires |seeds| == |rows|
  {
    && (forall id :: id in e.seen <==> id in seeds || Targets(rows, id))
    && forall f :: f in e.linked <==> Weighs(seeds, rows, f.id, f.weight)
  }

  lemma {:induction false} SeedAdded(e: Expansion, seeds: seq<Id>, rows: seq<seq<Link>>, seed: Id)
    requires |seeds| == |rows| && Expanded(e, seeds, rows)
    ensures Expanded(e.(seen := e.seen + {seed}), seeds + [seed], rows + [[]])
  {
    var more, wide := seeds + [seed], rows + [[]];
    forall i: nat, j: nat ensures Place(wide, i, j) <==> Place(rows, i, j) {
    }
    forall i: nat, j: nat | Place(rows, i, j)
      ensures wide[i][j] == rows[i][j] && (Leads(more, wide, i, j) <==> Leads(seeds, rows, i, j))
    {
      assert more[..i + 1] == seeds[..i + 1];
    }
    forall id ensures Targets(wide, id) <==> Targets(rows, id) {
      if Targets(rows, id) {
        var i: nat, j: nat :| Place(rows, i, j) && rows[i][j].key.target == id;
        assert Place(wide, i, j) && wide[i][j].key.target == id;
      }
    }
    forall id, w ensures Weighs(more, wide, id, w) <==> Weighs(seeds, rows, id, w) {
      if Weighs(seeds, rows, id, w) {
        var i: nat, j: nat :| Place(rows, i, j) && rows[i][j].key.target == id && rows[i][j].weight == w
          && Leads(seeds, rows, i, j);
        assert Place(wide, i, j) && Leads(more, wide, i, j);
      }
    }
  }

  /** One link more in the last list of rows. */
  function Grown(rows: seq<seq<Link>>, link: Link): (r: seq<seq<Link>>)
    requires rows != []
    ensures |r| == |rows|
  {
    rows[..|rows| - 1] + [rows[|rows| - 1] + [link]]
  }

  lemma {:induction false} GrownPlaces(seeds: seq<Id>, rows: seq<seq<Link>>, link: Link)
    requires rows != [] && |seeds| == |rows|
    ensures
      var n, more := |rows| - 1, Grown(rows, link);
      && Place(more, n, |rows[n]|) && more[n][|rows[n]|] == link
      && (forall i: nat, j: nat :: Place(more, i, j) <==> Place(rows, i, j) || (i == n && j == |rows[n]|))
      && (forall i: nat, j: nat :: Place(rows, i, j) ==>
            more[i][j] == rows[i][j] && (Leads(seeds, more, i, j) <==> Leads(seeds, rows, i, j)))
  {
    var n, more := |rows| - 1, Grown(rows, link);
    forall i: nat, j: nat | Place(rows, i, j) ensures more[i][j] == rows[i][j] {
    }
  }

  lemma {:induction false} GrownLeads(seeds: seq<Id>, rows: seq<seq<Link>>, link: Link)
    requires rows != [] && |seeds| == |rows|
    ensures
      var n, more := |rows| - 1, Grown(rows, link);
      && Place(more, n, |rows[n]|)
      && (Leads(seeds, more, n, |rows[n]|) <==> link.key.target !in seeds && !Targets(rows, link.key.target))
  {
    var n, more := |rows| - 1, Grown(rows, link);
    GrownPlaces(seeds, rows, link);
    assert seeds[..n + 1] == seeds;
    if link.key.target !in seeds && !Targets(rows, link.key.target) {
      forall a: nat, b: nat | Place(more, a, b) && (a < n || (a == n && b < |rows[n]|))
        ensures more[a][b].key.target != link.key.target
      {
        assert Place(rows, a, b);
      }
    }
    if Targets(rows, link.key.target) {
      var a: nat, b: nat :| Place(rows, a, b) && rows[a][b].key.target == link.key.target;
      assert Place(more, a, b) && more[a][b] == rows[a][b];
    }
  }

  lemma {:induction false} LinkAdded(e: Expansion, seeds: seq<Id>, rows: seq<seq<Link>>, link: Link)
    requires rows != [] && |seeds| == |rows| && Expanded(e, seeds, rows)
    ensures
      var id := link.key.target;
      Expanded(if id in e.seen then e else Expansion(e.seen + {id}, e.linked + [Found(id, link.weight)]), seeds,
               Grown(rows, link))
  {
    var n, more, id := |rows| - 1, Grown(rows, link), link.key.target;
    var f := if id in e.seen then e else Expansion(e.seen + {id}, e.linked + [Found(id, link.weight)]);
    GrownPlaces(seeds, rows, link);
    GrownLeads(seeds, rows, link);
    forall t ensures Targets(more, t) <==> Targets(rows, t) || t == id {
      if Targets(rows, t) {
        var i: nat, j: nat :| Place(rows, i, j) && rows[i][j].key.target == t;
        assert Place(more, i, j) && more[i][j].key.target == t;
      }
    }
    forall t, w
      ensures Weighs(seeds, more, t, w) <==>
        Weighs(seeds, rows, t, w) || (t == id && w == link.weight && Leads(seeds, more, n, |rows[n]|))
    {
      if Weighs(seeds, rows, t, w) {
        var i: nat, j: nat :| Place(rows, i, j) && rows[i][j].key.target == t && rows[i][j].weight == w
          && Leads(seeds, rows, i, j);
        assert Place(more, i, j) && Leads(seeds, more, i, j);
      }
      if Weighs(seeds, more, t, w) {
        var i: nat, j: nat :| Place(more, i, j) && more[i][j].key.target == t && more[i][j].weight == w
          && Leads(seeds, more, i, j);
        if Place(rows, i, j) {
          assert Leads(seeds, rows, i, j);
        }
      }
    }
    forall x: Found ensures x in f.linked <==> Weighs(seeds, more, x.id, x.weight) {
    }
  }

  lemma {:induction false} LinksAdded(e: Expansion, seeds: seq<Id>, rows: seq<seq<Link>>, links: seq<Link>)
    requires rows != [] && |seeds| == |rows| && rows[|rows| - 1] == [] && Expanded(e, seeds, rows)
    ensures Expanded(AddLinks(e, links), seeds, rows[..|rows| - 1] + [links])
    decreases |links|
  {
    if links == [] {
      assert rows[..|rows| - 1] + [links] == rows;
    } else {
      var n := |links| - 1;
      var before := rows[..|rows| - 1] + [links[..n]];
      LinksAdded(e, seeds, rows, links[..n]);
      LinkAdded(AddLinks(e, links[..n]), seeds, before, links[n]);
      assert links[..n] + [links[n]] == links;
      assert Grown(before, links[n]) == rows[..|rows| - 1] + [links];
    }
  }

  /** The expansion collects exactly the memories that the seeds lead to, each with the weight of the
      first link to it. */
  lemma {:induction false} ExpansionIs(seeds: seq<Id>, rows: seq<seq<Link>>)
    requires |seeds| == |rows|
    ensures Expanded(AddSeeds(NOTHING, seeds, rows), seeds, rows)
    decreases |seeds|
  {
    if seeds != [] {
      var n := |seeds| - 1;
      var e := AddSeeds(NOTHING, seeds[..n], rows[..n]);
      ExpansionIs(seeds[..n], rows[..n]);
      SeedAdded(e, seeds[..n], rows[..n], seeds[n]);
      assert seeds[..n] + [seeds[n]] == seeds;
      var wide := rows[..n] + [[]];
      LinksAdded(e.(seen := e.seen + {seeds[n]}), seeds, wide, rows[n]);
      assert wide[..n] + [rows[n]] == rows;
    }
  }

  /** The graph arm lists memories that the seeds lead to by falling weight, and leaves out one only
      when it is full and nothing in it is lighter. */
  ghost predicate ListsHeaviest(seeds: seq<Id>, rows: seq<seq<Link>>, limit: nat, results: Ranks, weights: seq<real>)
    requires |seeds| == |rows|
  {
    && |weights| == |results| <= limit
    && (forall i :: 0 <= i < |results| ==> results[i].1 == i && Weighs(seeds, rows, results[i].0, weights[i]))
    && Falling(weights)
    && forall id, w :: Weighs(seeds, rows, id, w) && id !in RankedIds(results) ==>
         |results| == limit && forall i :: 0 <= i < |weights| ==> weights[i] >= w
  }

  lemma {:induction false} HeaviestRankFirst(seeds: seq<Id>, rows: seq<seq<Link>>, limit: nat) returns (weights: seq<real>)
    requires |seeds| == |rows|
    ensures ListsHeaviest(seeds, rows, limit, GraphRanks(AddSeeds(NOTHING, seeds, rows), limit), weights)
  {
    var e := AddSeeds(NOTHING, seeds, rows);
    ExpansionIs(seeds, rows);
    var sorted := SortDesc(e.linked, FoundWeight);
    SortDescSorts(e.linked, FoundWeight);
    SameElements(e.linked, sorted);
    var kept := Truncated(sorted, limit);
    weights := Map(FoundWeight, kept);
    var results := GraphRanks(e, limit);
    forall i | 0 <= i < |results| ensures results[i].1 == i && Weighs(seeds, rows, results[i].0, weights[i]) {
      assert kept[i] == sorted[i] && sorted[i] in e.linked;
    }
    assert RankedIds(results) == Map(FoundId, kept);
    forall id, w | Weighs(seeds, rows, id, w) && id !in RankedIds(results)
      ensures |results| == limit && forall i :: 0 <= i < |weights| ==> weights[i] >= w
    {
      assert Found(id, w) in e.linked;
      LeftOut(sorted, limit, Found(id, w));
    }
  }

  lemma {:induction false} LeftOut(sorted: seq<Found>, limit: nat, f: Found)
    requires Descending(sorted, FoundWeight) && f in sorted
    requires f.id !in Map(FoundId, Truncated(sorted, limit))
    ensures |Truncated(sorted, limit)| == limit
    ensures forall i :: 0 <= i < limit ==> Truncated(sorted, limit)[i].weight >= f.weight
  {
    var kept := Truncated(sorted, limit);
    forall i | 0 <= i < |kept| ensures sorted[i] != f {
      assert Map(FoundId, kept)[i] == kept[i].id;
    }
    var j :| 0 <= j < |sorted| && sorted[j] == f;
    forall i | 0 <= i < |kept| ensures kept[i].weight >= f.weight {
      assert FoundWeight(sorted[i]) >= FoundWeight(sorted[j]);
    }
  }

  // ---- Which arms a candidate comes from ---------------------------------------------------

  lemma {:induction false} ListsSnoc(items: Ranks, n: nat, id: Id)
    requires n < |items|
    ensures Lists(items[..n + 1], id) <==> Lists(items[..n], id) || items[n].0 == id
  {
    if Lists(items[..n + 1], id) {
      var i :| 0 <= i < n + 1 && items[..n + 1][i].0 == id;
      assert i < n ==> items[..n][i].0 == id;
    }
    if Lists(items[..n], id) {
      var i :| 0 <= i < n && items[..n][i].0 == id;
      assert items[..n + 1][i].0 == id;
    }
    assert items[..n + 1][n] == items[n];
  }

  lemma {:induction false} ListSourcesIs(items: Ranks, source: RetrievalSource, id: Id, s: RetrievalSource)
    ensures s in ListSources(items, source, id) <==> s == source && Lists(items, id)
  {
    if items != [] {
      var n := |items| - 1;
      ListSourcesIs(items[..n], source, id, s);
      ListsSnoc(items, n, id);
      assert items[..n + 1] == items;
    }
  }

  ghost predicate ComesFrom(lists: seq<SourceList>, id: Id, source: RetrievalSource) {
    exists i :: 0 <= i < |lists| && lists[i].source == source && Lists(lists[i].list.items, id)
  }

  lemma {:induction false} ComesFromSnoc(lists: seq<SourceList>, last: SourceList, id: Id, source: RetrievalSource)
    ensures ComesFrom(lists + [last], id, source) <==>
      ComesFrom(lists, id, source) || (last.source == source && Lists(last.list.items, id))
  {
    var more := lists + [last];
    if ComesFrom(lists, id, source) {
      var i :| 0 <= i < |lists| && lists[i].source == source && Lists(lists[i].list.items, id);
      assert more[i] == lists[i];
    }
    assert more[|lists|] == last;
  }

  /** A candidate is said to come from an arm exactly when a list of that arm has it. */
  lemma {:induction false} ComesFromExactlyWhen(lists: seq<SourceList>, id: Id, source: RetrievalSource)
    ensures source in SourcesOf(lists, id) <==> ComesFrom(lists, id, source)
  {
    if lists != [] {
      var n := |lists| - 1;
      ComesFromExactlyWhen(lists[..n], id, source);
      ListSourcesIs(lists[n].list.items, lists[n].source, id, source);
      ComesFromSnoc(lists[..n], lists[n], id, source);
      assert lists[..n] + [lists[n]] == lists;
    }
  }

  lemma {:induction false} FourSources(cfg: Config, semantic: Ranks, keyword: Ranks, graph: Ranks, temporal: Ranks, id: Id)
    ensures
      var sources := SourcesOf(ListsOf(cfg, semantic, keyword, graph, temporal), id);
      && (RetrievalSource.Semantic in sources <==> Lists(semantic, id))
      && (Keyword in sources <==> Lists(keyword, id))
      && (RetrievalSource.Graph in sources <==> Lists(graph, id))
      && (Temporal in sources <==> Lists(temporal, id))
  {
    var lists := ListsOf(cfg, semantic, keyword, graph, temporal);
    ComesFromExactlyWhen(lists, id, RetrievalSource.Semantic);
    ComesFromExactlyWhen(lists, id, Keyword);
    ComesFromExactlyWhen(lists, id, RetrievalSource.Graph);
    ComesFromExactlyWhen(lists, id, Temporal);
    assert lists[0].source.Semantic? && lists[1].source.Keyword? && lists[2].source.Graph? && lists[3].source.Temporal?;
  }

  /** In a search, each source names one arm, and a candidate carries the sources of just those arms
      that list it. */
  lemma {:induction false} SourcesNameTheArms(db: Db, cfg: Config, sqrt: real -> real, query: Query, agent: Id, now: int,
        t: Fetched, fused: seq<Fused>, i: nat)
    requires NoZero(cfg.rrfK) && Searched(db, cfg, sqrt, query, agent, now, t, fused) && i < |fused|
    ensures
      var limit := cfg.candidatesPerArm;
      var id, sources := fused[i].id, fused[i].sources;
      && (RetrievalSource.Semantic in sources <==> Lists(t.Semantic(sqrt, query.embedding, limit), id))
      && (Keyword in sources <==> id in t.hits)
      && (RetrievalSource.Graph in sources <==> Lists(t.Graph(sqrt, query.embedding, limit), id))
      && (Temporal in sources <==> id in Map(MemoryId, t.recent))
  {
    var limit := cfg.candidatesPerArm;
    var recent := Map(MemoryId, t.recent);
    FourSources(cfg, t.Semantic(sqrt, query.embedding, limit), Ranked(t.hits), t.Graph(sqrt, query.embedding, limit),
      Ranked(recent), fused[i].id);
    RankedLists(t.hits, fused[i].id);
    RankedLists(recent, fused[i].id);
  }

  lemma {:induction false} RankedLists(ids: seq<Id>, id: Id)
    ensures Lists(Ranked(ids), id) <==> id in ids
  {
    if id in ids {
      var i :| 0 <= i < |ids| && ids[i] == id;
      assert Ranked(ids)[i].0 == id;
    }
  }
}

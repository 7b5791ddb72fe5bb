/** Recall (crates/rustykrab-memory/src/retrieval.rs): four arms, fusion, and the final filter, sort
    and truncation.

    The method `Recall` runs alone; `Engine` interleaves the same steps with every writer.  Nothing
    after the arms looks at a memory's agent, so that recall returns the agent's own memories rests
    on `Consistent`, which the writers keep together. */
module Retrieval {
  import opened Options
  import opened MemoryTypes
  import opened Ranking
  import opened Scoring
  import opened Similarity
  import opened Storage

  /** Positions as ranks. */
  function Ranked(ids: seq<Id>): (r: Ranks)
    ensures |r| == |ids| && forall i :: 0 <= i < |r| ==> r[i] == (ids[i], i)
  {
    seq(|ids|, i requires 0 <= i < |ids| => (ids[i], i))
  }

  // ---- The semantic arm --------------------------------------------------------------------

  predicate Blank(query: Embedding) {
    forall i :: 0 <= i < |query| ==> query[i] == 0.0
  }

  function Candidates(chunks: seq<Chunk>): (r: seq<(Id, Embedding)>)
    ensures |r| == |chunks| && forall i :: 0 <= i < |r| ==> r[i] == (chunks[i].memory, chunks[i].embedding)
  {
    seq(|chunks|, i requires 0 <= i < |chunks| => (chunks[i].memory, chunks[i].embedding))
  }

  /** The memories of the k nearest chunks, nearest first; a memory can occur more than once. */
  function Nearest(sqrt: real -> real, query: Embedding, chunks: seq<Chunk>, k: nat): seq<Id> {
    Map(n => KeyOf(n), TopKSimilar(sqrt, query, Candidates(chunks), k))
  }

  /** First occurrences, until there are `limit` of them. */
  function Deduped(ids: seq<Id>, limit: nat): seq<Id> {
    if ids == [] then []
    else
      var n := |ids| - 1;
      var d := Deduped(ids[..n], limit);
      if |d| >= limit || ids[n] in d then d else d + [ids[n]]
  }

  lemma {:induction false} DedupedIsDistinct(ids: seq<Id>, limit: nat)
    ensures Distinct(Deduped(ids, limit)) && |Deduped(ids, limit)| <= limit
    ensures forall i :: 0 <= i < |Deduped(ids, limit)| ==> Deduped(ids, limit)[i] in ids
  {
    if ids != [] {
      DedupedIsDistinct(ids[..|ids| - 1], limit);
    }
  }

  lemma {:induction false} DedupedIsComplete(ids: seq<Id>, limit: nat, i: nat)
    requires |Deduped(ids, limit)| < limit && i < |ids|
    ensures ids[i] in Deduped(ids, limit)
    decreases |ids|
  {
    if i < |ids| - 1 {
      DedupedIsComplete(ids[..|ids| - 1], limit, i);
    }
  }

  lemma {:induction false} DedupedStops(ids: seq<Id>, limit: nat, n: nat)
    requires n <= |ids| && |Deduped(ids[..n], limit)| >= limit
    ensures Deduped(ids, limit) == Deduped(ids[..n], limit)
    decreases |ids|
  {
    if n < |ids| {
      var front := ids[..|ids| - 1];
      assert front[..n] == ids[..n];
      DedupedStops(front, limit, n);
    } else {
      assert ids[..n] == ids;
    }
  }

  function SemanticArm(sqrt: real -> real, query: Embedding, chunks: seq<Chunk>, limit: nat): Ranks {
    if Blank(query) then [] else Ranked(Deduped(Nearest(sqrt, query, chunks, limit * 2), limit))
  }

  /** Distinct memories of the nearest chunks, ranked by position; all of them, unless the limit is
      reached. */
  ghost predicate ListsNearest(sqrt: real -> real, query: Embedding, chunks: seq<Chunk>, limit: nat, results: Ranks) {
    var nearest := if Blank(query) then [] else Nearest(sqrt, query, chunks, limit * 2);
    && Distinct(RankedIds(results)) && |results| <= limit
    && (forall i :: 0 <= i < |results| ==> results[i].1 == i && results[i].0 in nearest)
    && (|results| < limit ==> forall i :: 0 <= i < |nearest| ==> nearest[i] in RankedIds(results))
  }

  lemma {:induction false} SemanticArmListsNearest(sqrt: real -> real, query: Embedding, chunks: seq<Chunk>, limit: nat)
    ensures ListsNearest(sqrt, query, chunks, limit, SemanticArm(sqrt, query, chunks, limit))
  {
    if !Blank(query) {
      var nearest := Nearest(sqrt, query, chunks, limit * 2);
      var ids := Deduped(nearest, limit);
      DedupedIsDistinct(nearest, limit);
      assert RankedIds(Ranked(ids)) == ids;
      if |ids| < limit {
        forall i | 0 <= i < |nearest| ensures nearest[i] in ids {
          DedupedIsComplete(nearest, limit, i);
        }
      }
      forall i | 0 <= i < |ids| ensures ids[i] in nearest {
      }
    }
  }

  method RetrieveSemantic(sqrt: real -> real, query: Embedding, chunks: seq<Chunk>, limit: nat) returns (results: Ranks)
    ensures results == SemanticArm(sqrt, query, chunks, limit)
    ensures ListsNearest(sqrt, query, chunks, limit, results)
  {
    SemanticArmListsNearest(sqrt, query, chunks, limit);
    if Blank(query) {
      return [];
    }
    results := FirstOccurrences(Nearest(sqrt, query, chunks, limit * 2), limit);
  }

  /** The loop over the nearest chunks. */
  method FirstOccurrences(top: seq<Id>, limit: nat) returns (results: Ranks)
    requires top != [] ==> limit > 0
    ensures results == Ranked(Deduped(top, limit))
  {
    var seen: set<Id> := {};
    results := [];
    for i := 0 to |top|
      invariant results == Ranked(Deduped(top[..i], limit))
      invariant forall id :: id in seen <==> id in Deduped(top[..i], limit)
      invariant i > 0 ==> |results| < limit
      invariant top != [] ==> limit > 0
    {
      DedupedStep(top, limit, i);
      if top[i] !in seen {
        seen := seen + {top[i]};
        results := results + [(top[i], |results|)];
      }
      if |results| >= limit {
        DedupedStops(top, limit, i + 1);
        return results;
      }
    }
    assert top[..|top|] == top;
  }

  lemma {:induction false} DedupedStep(ids: seq<Id>, limit: nat, i: nat)
    requires i < |ids| && |Deduped(ids[..i], limit)| < limit
    ensures
      var d := Deduped(ids[..i], limit);
      && Deduped(ids[..i + 1], limit) == (if ids[i] in d then d else d + [ids[i]])
      && Ranked(d + [ids[i]]) == Ranked(d) + [(ids[i], |d|)]
  {
    assert ids[..i + 1][..i] == ids[..i];
  }

  // ---- The graph arm -----------------------------------------------------------------------

  datatype Found = Found(id: Id, weight: real)

  function FoundId(f: Found): Id { f.id }
  function FoundWeight(f: Found): real { f.weight }

  /** What the expansion has seen and collected so far. */
  datatype Expansion = Expansion(seen: set<Id>, linked: seq<Found>)

  const NOTHING := Expansion({}, [])

  function AddLinks(e: Expansion, rows: seq<Link>): Expansion
    decreases |rows|
  {
    if rows == [] then e
    else
      var n := |rows| - 1;
      var f := AddLinks(e, rows[..n]);
      if rows[n].key.target in f.seen then f
      else Expansion(f.seen + {rows[n].key.target}, f.linked + [Found(rows[n].key.target, rows[n].weight)])
  }

  function AddSeed(e: Expansion, seed: Id, rows: seq<Link>): Expansion {
    AddLinks(e.(seen := e.seen + {seed}), rows)
  }

  function AddSeeds(e: Expansion, seeds: seq<Id>, rows: seq<seq<Link>>): Expansion
    requires |seeds| == |rows|
    decreases |seeds|
  {
    if seeds == [] then e
    else var n := |seeds| - 1; AddSeed(AddSeeds(e, seeds[..n], rows[..n]), seeds[n], rows[n])
  }

  function GraphRanks(e: Expansion, limit: nat): Ranks {
    Ranked(Map(FoundId, Truncated(SortDesc(e.linked, FoundWeight), limit)))
  }

  const SEEDS := 5

  method ExpandSeed(storage: SqliteMemoryStorage, e: Expansion, seed: Id) returns (f: Expansion, rows: seq<Link>)
    requires storage.Valid()
    ensures Listing(rows, storage.links, FromSource(seed), KeyOfLink)
    ensures f == AddSeed(e, seed, rows)
  {
    var seen, linked := e.seen + {seed}, e.linked;
    var links := storage.GetLinksFrom(seed);
    rows := links;
    for i := 0 to |links|
      invariant Expansion(seen, linked) == AddLinks(e.(seen := e.seen + {seed}), links[..i])
    {
      assert links[..i + 1][..i] == links[..i];
      var link := links[i];
      if link.key.target !in seen {
        seen := seen + {link.key.target};
        linked := linked + [Found(link.key.target, link.weight)];
      }
    }
    assert links[..|links|] == links;
    f := Expansion(seen, linked);
  }

  ghost predicate LinkRows(rows: seq<seq<Link>>, links: map<LinkKey, Link>, seeds: seq<Id>) {
    |rows| == |seeds|
    && forall i :: 0 <= i < |seeds| ==> Listing(rows[i], links, FromSource(seeds[i]), KeyOfLink)
  }

  lemma {:induction false} LinkRowsNext(rows: seq<seq<Link>>, links: map<LinkKey, Link>, seeds: seq<Id>, i: nat,
        more: seq<Link>)
    requires i < |seeds| && LinkRows(rows, links, seeds[..i])
    requires Listing(more, links, FromSource(seeds[i]), KeyOfLink)
    ensures LinkRows(rows + [more], links, seeds[..i + 1])
  {
  }

  method RetrieveGraph(storage: SqliteMemoryStorage, sqrt: real -> real, query: Embedding, chunks: seq<Chunk>, limit: nat)
    returns (results: Ranks, rows: seq<seq<Link>>)
    requires storage.Valid()
    ensures
      var seeds := if Blank(query) then [] else Nearest(sqrt, query, chunks, SEEDS);
      LinkRows(rows, storage.links, seeds) && results == GraphRanks(AddSeeds(NOTHING, seeds, rows), limit)
  {
    rows := [];
    if Blank(query) {
      return [], [];
    }
    var seeds := Nearest(sqrt, query, chunks, SEEDS);
    var e := NOTHING;
    for i := 0 to |seeds|
      invariant |rows| == i && LinkRows(rows, storage.links, seeds[..i])
      invariant e == AddSeeds(NOTHING, seeds[..i], rows)
    {
      var more;
      var before := e;
      e, more := ExpandSeed(storage, before, seeds[i]);
      LinkRowsNext(rows, storage.links, seeds, i, more);
      assert seeds[..i + 1][..i] == seeds[..i] && (rows + [more])[..i] == rows;
      rows := rows + [more];
    }
    assert seeds[..|seeds|] == seeds;
    results := GraphRanks(e, limit);
  }

  /** What an expansion has collected is distinct and has been seen. */
  ghost predicate Tidy(e: Expansion) {
    Distinct(Map(FoundId, e.linked)) && forall i :: 0 <= i < |e.linked| ==> e.linked[i].id in e.seen
  }

  lemma {:induction false} AddLinksKeepsTidy(e: Expansion, rows: seq<Link>)
    requires Tidy(e)
    ensures Tidy(AddLinks(e, rows))
    decreases |rows|
  {
    if rows != [] {
      var n := |rows| - 1;
      AddLinksKeepsTidy(e, rows[..n]);
      var f := AddLinks(e, rows[..n]);
      assert Map(FoundId, f.linked + [Found(rows[n].key.target, rows[n].weight)])
        == Map(FoundId, f.linked) + [rows[n].key.target];
    }
  }

  /** The arm lists the best linked memories first, none twice. */
  lemma {:induction false} GraphRanksAreDistinct(e: Expansion, limit: nat)
    requires Tidy(e)
    ensures Distinct(RankedIds(GraphRanks(e, limit))) && |GraphRanks(e, limit)| <= limit
    ensures forall i :: 0 <= i < |GraphRanks(e, limit)| ==> GraphRanks(e, limit)[i].0 in e.seen
  {
    var sorted := SortDesc(e.linked, FoundWeight);
    SortKeepsMapped(e.linked, FoundWeight, FoundId);
    SortKeepsAll(e.linked, FoundWeight, (f: Found) => f.id in e.seen);
    var ids := Map(FoundId, Truncated(sorted, limit));
    forall i | 0 <= i < |ids| ensures ids[i] == Map(FoundId, sorted)[i] {
    }
    assert RankedIds(GraphRanks(e, limit)) == ids;
  }

  // ---- Filter, score, sort, truncate -------------------------------------------------------

  datatype Result = Result(memoryId: Id, rrfScore: real, effectiveScore: real, sources: seq<RetrievalSource>, memory: Memory)

  function ResultId(r: Result): Id { r.memoryId }
  function Effective(r: Result): real { r.effectiveScore }

  /** The scoring context of one recall. */
  datatype Scorer = Scorer(cfg: Config, exp: real -> real, now: int) {
    function Weights(): real {
      cfg.weightSemantic + cfg.weightKeyword + cfg.weightGraph + cfg.weightTemporal
    }

    function Rate(m: Memory, f: Fused): Result
      requires cfg.rrfK != 0.0
    {
      Result(f.id, f.score, m.EffectiveScore(exp, Normalized(f.score, Weights(), cfg.rrfK), now), f.sources, m)
    }
  }

  predicate Returnable(memories: map<Id, Memory>, id: Id) {
    id in memories && memories[id].isValid && memories[id].stage.IsRetrievable()
  }

  /** The fused rows whose memory exists, is valid and is retrievable, in order. */
  function Picked(s: Scorer, memories: map<Id, Memory>, fused: seq<Fused>): seq<Result>
    requires s.cfg.rrfK != 0.0
  {
    if fused == [] then []
    else
      var n := |fused| - 1;
      Picked(s, memories, fused[..n])
      + if Returnable(memories, fused[n].id) then [s.Rate(memories[fused[n].id], fused[n])] else []
  }

  function Final(s: Scorer, memories: map<Id, Memory>, fused: seq<Fused>, limit: nat): seq<Result>
    requires s.cfg.rrfK != 0.0
  {
    Truncated(SortDesc(Picked(s, memories, fused), Effective), limit)
  }

  function FusedId(f: Fused): Id { f.id }

  lemma {:induction false} FindInListing(rows: seq<Memory>, memories: map<Id, Memory>, ids: seq<Id>, id: Id)
    requires Listing(rows, memories, IdIn(ids), MemoryId) && id in ids
    requires forall k :: k in memories ==> memories[k].id == k
    ensures match Find(rows, id)
      case Some(m) => id in memories && memories[id] == m
      case None => id !in memories
  {
    FindFinds(rows, id);
    if id in memories {
      assert id in Map(MemoryId, rows);
    }
  }

  /** `memories.iter().find(|m| m.id == id)`. */
  function Find(rows: seq<Memory>, id: Id): Option<Memory> {
    if rows == [] then None
    else if rows[0].id == id then Some(rows[0])
    else Find(rows[1..], id)
  }

  lemma {:induction false} FindFinds(rows: seq<Memory>, id: Id)
    ensures match Find(rows, id)
      case Some(m) => m.id == id && m in rows
      case None => id !in Map(MemoryId, rows)
  {
    if rows != [] && rows[0].id != id {
      FindFinds(rows[1..], id);
      assert Map(MemoryId, rows) == [rows[0].id] + Map(MemoryId, rows[1..]);
    }
  }

  /** Stage 4 over the fetched rows. */
  method PickAndRate(s: Scorer, ghost memories: map<Id, Memory>, rows: seq<Memory>, fused: seq<Fused>)
    returns (results: seq<Result>)
    requires s.cfg.rrfK != 0.0
    requires Listing(rows, memories, IdIn(Map(FusedId, fused)), MemoryId)
    requires forall k :: k in memories ==> memories[k].id == k
    ensures results == Picked(s, memories, fused)
  {
    results := [];
    for i := 0 to |fused|
      invariant results == Picked(s, memories, fused[..i])
    {
      assert fused[..i + 1][..i] == fused[..i];
      assert Map(FusedId, fused)[i] == fused[i].id;
      FindInListing(rows, memories, Map(FusedId, fused), fused[i].id);
      var found := Find(rows, fused[i].id);
      if found.Some? {
        var m := found.value;
        if !m.isValid || !m.stage.IsRetrievable() {
          continue;
        }
        results := results + [s.Rate(m, fused[i])];
      }
    }
    assert fused[..|fused|] == fused;
  }

  // ---- What the final stage promises -------------------------------------------------------

  /** At most `limit` distinct results in descending order of effective score, each a valid and
      retrievable memory as it was read, and nothing with a better score left out. */
  ghost predicate Promise(results: seq<Result>, s: Scorer, memories: map<Id, Memory>, fused: seq<Fused>, limit: nat)
    requires s.cfg.rrfK != 0.0
  {
    && |results| <= limit
    && Distinct(Map(ResultId, results))
    && Descending(results, Effective)
    && (forall i :: 0 <= i < |results| ==> FromRow(results[i], s, memories, fused))
    && (forall j :: 0 <= j < |fused| && Returnable(memories, fused[j].id) && fused[j].id !in Map(ResultId, results) ==>
          |results| == limit
          && forall i :: 0 <= i < |results| ==>
               results[i].effectiveScore >= s.Rate(memories[fused[j].id], fused[j]).effectiveScore)
  }

  ghost predicate FromRow(r: Result, s: Scorer, memories: map<Id, Memory>, fused: seq<Fused>)
    requires s.cfg.rrfK != 0.0
  {
    && Returnable(memories, r.memoryId)
    && exists j :: 0 <= j < |fused| && fused[j].id == r.memoryId && r == s.Rate(memories[r.memoryId], fused[j])
  }

  lemma {:induction false} PickedRows(s: Scorer, memories: map<Id, Memory>, fused: seq<Fused>)
    requires s.cfg.rrfK != 0.0
    ensures AllOf(Picked(s, memories, fused), (r: Result) => FromRow(r, s, memories, fused))
  {
    if fused != [] {
      var n := |fused| - 1;
      var front := Picked(s, memories, fused[..n]);
      PickedRows(s, memories, fused[..n]);
      forall i | 0 <= i < |front| ensures FromRow(front[i], s, memories, fused) {
        var p := (r: Result) => FromRow(r, s, memories, fused[..n]);
        assert p(front[i]);
        var j :| 0 <= j < n && fused[..n][j].id == front[i].memoryId
              && front[i] == s.Rate(memories[front[i].memoryId], fused[..n][j]);
        assert fused[j] == fused[..n][j];
      }
      if Returnable(memories, fused[n].id) {
        assert FromRow(s.Rate(memories[fused[n].id], fused[n]), s, memories, fused);
      }
    }
  }

  lemma {:induction false} PickedIds(s: Scorer, memories: map<Id, Memory>, fused: seq<Fused>)
    requires s.cfg.rrfK != 0.0 && Distinct(Map(FusedId, fused))
    ensures Distinct(Map(ResultId, Picked(s, memories, fused)))
    ensures forall i :: 0 <= i < |Picked(s, memories, fused)| ==>
              Map(ResultId, Picked(s, memories, fused))[i] in Map(FusedId, fused)
  {
    if fused != [] {
      var n, ids := |fused| - 1, Map(FusedId, fused);
      var front := Picked(s, memories, fused[..n]);
      assert Map(FusedId, fused[..n]) == ids[..n];
      PickedIds(s, memories, fused[..n]);
      if Returnable(memories, fused[n].id) {
        var last := s.Rate(memories[fused[n].id], fused[n]);
        assert Map(ResultId, front + [last]) == Map(ResultId, front) + [last.memoryId];
        forall i | 0 <= i < |front| ensures Map(ResultId, front)[i] != last.memoryId {
          var j :| 0 <= j < n && ids[..n][j] == Map(ResultId, front)[i];
          assert ids[j] != ids[n];
        }
      }
    }
  }

  lemma {:induction false} PickedIsComplete(s: Scorer, memories: map<Id, Memory>, fused: seq<Fused>, j: nat)
    requires s.cfg.rrfK != 0.0 && j < |fused| && Returnable(memories, fused[j].id)
    ensures s.Rate(memories[fused[j].id], fused[j]) in Picked(s, memories, fused)
  {
    var n := |fused| - 1;
    if j < n {
      PickedIsComplete(s, memories, fused[..n], j);
    }
  }

  lemma {:induction false} LeftOutIsNoBetter(picked: seq<Result>, r: Result, limit: nat)
    requires r in picked
    ensures
      var final := Truncated(SortDesc(picked, Effective), limit);
      r in final || (|final| == limit && forall i :: 0 <= i < |final| ==> final[i].effectiveScore >= r.effectiveScore)
  {
    var sorted := SortDesc(picked, Effective);
    SortDescSorts(picked, Effective);
    assert r in multiset(picked);
    assert r in multiset(sorted);
    var k :| 0 <= k < |sorted| && sorted[k] == r;
    var final := Truncated(sorted, limit);
    if k >= limit {
      forall i | 0 <= i < |final| ensures final[i].effectiveScore >= r.effectiveScore {
        assert Effective(sorted[i]) >= Effective(sorted[k]);
      }
    } else {
      assert final[k] == r;
    }
  }

  lemma {:induction false} FinalIsOrdered(picked: seq<Result>, limit: nat)
    requires Distinct(Map(ResultId, picked))
    ensures
      var final := Truncated(SortDesc(picked, Effective), limit);
      Distinct(Map(ResultId, final)) && Descending(final, Effective)
  {
    var sorted := SortDesc(picked, Effective);
    var final := Truncated(sorted, limit);
    SortDescSorts(picked, Effective);
    SortKeepsMapped(picked, Effective, ResultId);
    assert Map(ResultId, final) == Map(ResultId, sorted)[..|final|];
  }

  lemma {:induction false} FinalRows(s: Scorer, memories: map<Id, Memory>, fused: seq<Fused>, limit: nat)
    requires s.cfg.rrfK != 0.0
    ensures AllOf(Final(s, memories, fused, limit), (r: Result) => FromRow(r, s, memories, fused))
  {
    PickedRows(s, memories, fused);
    SortKeepsAll(Picked(s, memories, fused), Effective, (r: Result) => FromRow(r, s, memories, fused));
  }

  lemma {:induction false} NothingBetterIsLeftOut(s: Scorer, memories: map<Id, Memory>, fused: seq<Fused>,
        limit: nat, j: nat)
    requires s.cfg.rrfK != 0.0 && j < |fused| && Returnable(memories, fused[j].id)
    requires fused[j].id !in Map(ResultId, Final(s, memories, fused, limit))
    ensures
      var final := Final(s, memories, fused, limit);
      && |final| == limit
      && forall i :: 0 <= i < |final| ==>
           final[i].effectiveScore >= s.Rate(memories[fused[j].id], fused[j]).effectiveScore
  {
    var r, final := s.Rate(memories[fused[j].id], fused[j]), Final(s, memories, fused, limit);
    PickedIsComplete(s, memories, fused, j);
    forall i | 0 <= i < |final| ensures final[i] != r {
      assert Map(ResultId, final)[i] != fused[j].id;
    }
    LeftOutIsNoBetter(Picked(s, memories, fused), r, limit);
  }

  lemma {:induction false} FinalKeepsPromise(s: Scorer, memories: map<Id, Memory>, fused: seq<Fused>, limit: nat)
    requires s.cfg.rrfK != 0.0 && Distinct(Map(FusedId, fused))
    ensures Promise(Final(s, memories, fused, limit), s, memories, fused, limit)
  {
    var final := Final(s, memories, fused, limit);
    PickedIds(s, memories, fused);
    FinalIsOrdered(Picked(s, memories, fused), limit);
    FinalRows(s, memories, fused, limit);
    var p := (r: Result) => FromRow(r, s, memories, fused);
    assert forall i :: 0 <= i < |final| ==> p(final[i]) ==> FromRow(final[i], s, memories, fused);
    forall j | 0 <= j < |fused| && Returnable(memories, fused[j].id) && fused[j].id !in Map(ResultId, final)
      ensures |final| == limit && forall i :: 0 <= i < |final| ==>
                final[i].effectiveScore >= s.Rate(memories[fused[j].id], fused[j]).effectiveScore
    {
      NothingBetterIsLeftOut(s, memories, fused, limit, j);
    }
  }

  // ---- Whose memories the arms return ------------------------------------------------------

  /** What the writers keep together and the arms rely on. */
  ghost predicate Consistent(db: Db) {
    && Keyed(db)
    && (forall c :: c in db.chunks ==> db.chunks[c].memory in db.memories)
    && (forall id :: id in db.fts ==> id in db.memories && db.fts[id].agent == db.memories[id].agent)
    && (forall k :: k in db.links ==> JoinsOneAgent(db.memories, k))
  }

  ghost predicate JoinsOneAgent(memories: map<Id, Memory>, k: LinkKey) {
    && k.source != k.target
    && k.source in memories && k.target in memories
    && memories[k.source].agent == memories[k.target].agent
  }

  ghost predicate Owned(memories: map<Id, Memory>, agent: Id, id: Id) {
    id in memories && memories[id].agent == agent
  }

  ghost predicate AllOwned(memories: map<Id, Memory>, agent: Id, ids: seq<Id>) {
    forall i :: 0 <= i < |ids| ==> Owned(memories, agent, ids[i])
  }

  ghost predicate ArmOwned(memories: map<Id, Memory>, agent: Id, arm: Ranks) {
    AllOwned(memories, agent, RankedIds(arm)) && Distinct(RankedIds(arm))
  }

  lemma {:induction false} ArmOfIds(memories: map<Id, Memory>, agent: Id, ids: seq<Id>)
    requires AllOwned(memories, agent, ids) && Distinct(ids)
    ensures ArmOwned(memories, agent, Ranked(ids))
  {
    assert RankedIds(Ranked(ids)) == ids;
  }

  lemma {:induction false} NearestIsOwned(memories: map<Id, Memory>, agent: Id, sqrt: real -> real,
        query: Embedding, chunks: seq<Chunk>, k: nat)
    requires forall i :: 0 <= i < |chunks| ==> Owned(memories, agent, chunks[i].memory)
    ensures AllOwned(memories, agent, Nearest(sqrt, query, chunks, k))
  {
    TopKFromCandidates(sqrt, query, Candidates(chunks), k, (id: Id) => Owned(memories, agent, id));
  }

  lemma {:induction false} SemanticArmIsOwned(memories: map<Id, Memory>, agent: Id, sqrt: real -> real,
        query: Embedding, chunks: seq<Chunk>, limit: nat)
    requires forall i :: 0 <= i < |chunks| ==> Owned(memories, agent, chunks[i].memory)
    ensures ArmOwned(memories, agent, SemanticArm(sqrt, query, chunks, limit))
  {
    if Blank(query) {
      assert RankedIds([]) == [];
    } else {
      var near := Nearest(sqrt, query, chunks, limit * 2);
      NearestIsOwned(memories, agent, sqrt, query, chunks, limit * 2);
      DedupedIsDistinct(near, limit);
      ArmOfIds(memories, agent, Deduped(near, limit));
    }
  }

  lemma {:induction false} KeywordArmIsOwned(db: Db, agent: Id, ids: seq<Id>, limit: nat)
    requires Consistent(db) && Hits(ids, db.fts, agent, limit)
    ensures ArmOwned(db.memories, agent, Ranked(ids))
  {
    ArmOfIds(db.memories, agent, ids);
  }

  lemma {:induction false} PrefixOfListingIsOwned(memories: map<Id, Memory>, agent: Id, all: seq<Memory>,
        p: Memory -> bool, n: nat)
    requires Listing(all, memories, p, MemoryId) && n <= |all|
    requires forall m: Memory :: p(m) ==> m.agent == agent
    ensures ArmOwned(memories, agent, Ranked(Map(MemoryId, all[..n])))
  {
    var ids := Map(MemoryId, all[..n]);
    assert ids == Map(MemoryId, all)[..n];
    forall i | 0 <= i < n ensures Owned(memories, agent, ids[i]) {
      assert p(all[i]);
    }
    ArmOfIds(memories, agent, ids);
  }

  lemma {:induction false} TemporalArmIsOwned(memories: map<Id, Memory>, agent: Id, rows: seq<Memory>, from: int,
        to: int, limit: nat)
    requires Recent(rows, memories, agent, from, to, limit)
    ensures ArmOwned(memories, agent, Ranked(Map(MemoryId, rows)))
  {
    var p := InRange(agent, from, to);
    var all :| Listing(all, memories, p, MemoryId) && rows == Truncated(SortDesc(all, Created), limit);
    var sorted := SortDesc(all, Created);
    SortedListing(all, memories, p, MemoryId, Created);
    PrefixOfListingIsOwned(memories, agent, sorted, p, |rows|);
    assert rows == sorted[..|rows|];
  }

  ghost predicate AllSeenOwned(memories: map<Id, Memory>, agent: Id, e: Expansion) {
    forall id :: id in e.seen ==> Owned(memories, agent, id)
  }

  lemma {:induction false} AddLinksIsOwned(memories: map<Id, Memory>, agent: Id, e: Expansion, rows: seq<Link>)
    requires AllSeenOwned(memories, agent, e)
    requires forall i :: 0 <= i < |rows| ==> Owned(memories, agent, rows[i].key.target)
    ensures AllSeenOwned(memories, agent, AddLinks(e, rows))
    decreases |rows|
  {
    if rows != [] {
      AddLinksIsOwned(memories, agent, e, rows[..|rows| - 1]);
    }
  }

  /** Expanding a seed of the agent finds only memories of the agent: links never join two agents. */
  lemma {:induction false} AddSeedIsOwned(db: Db, agent: Id, e: Expansion, seed: Id, rows: seq<Link>)
    requires Consistent(db) && Owned(db.memories, agent, seed)
    requires AllSeenOwned(db.memories, agent, e) && Tidy(e)
    requires Listing(rows, db.links, FromSource(seed), KeyOfLink)
    ensures AllSeenOwned(db.memories, agent, AddSeed(e, seed, rows)) && Tidy(AddSeed(e, seed, rows))
  {
    forall i | 0 <= i < |rows| ensures Owned(db.memories, agent, rows[i].key.target) {
      assert rows[i].key in db.links && rows[i].key.source == seed;
      assert JoinsOneAgent(db.memories, rows[i].key);
    }
    AddLinksIsOwned(db.memories, agent, e.(seen := e.seen + {seed}), rows);
    AddLinksKeepsTidy(e.(seen := e.seen + {seed}), rows);
  }

  lemma {:induction false} AddSeedsIsOwned(db: Db, agent: Id, seeds: seq<Id>, rows: seq<seq<Link>>)
    requires Consistent(db) && AllOwned(db.memories, agent, seeds)
    requires LinkRows(rows, db.links, seeds)
    ensures AllSeenOwned(db.memories, agent, AddSeeds(NOTHING, seeds, rows)) && Tidy(AddSeeds(NOTHING, seeds, rows))
    decreases |seeds|
  {
    if seeds != [] {
      var n := |seeds| - 1;
      AddSeedsIsOwned(db, agent, seeds[..n], rows[..n]);
      AddSeedIsOwned(db, agent, AddSeeds(NOTHING, seeds[..n], rows[..n]), seeds[n], rows[n]);
    }
  }

  lemma {:induction false} GraphArmIsOwned(memories: map<Id, Memory>, agent: Id, e: Expansion, limit: nat)
    requires AllSeenOwned(memories, agent, e) && Tidy(e)
    ensures ArmOwned(memories, agent, GraphRanks(e, limit))
  {
    GraphRanksAreDistinct(e, limit);
  }

  /** The four ranked lists handed to fusion. */
  function ListsOf(cfg: Config, semantic: Ranks, keyword: Ranks, graph: Ranks, temporal: Ranks): seq<SourceList> {
    [SourceList(WeightedList(semantic, cfg.weightSemantic), RetrievalSource.Semantic),
     SourceList(WeightedList(keyword, cfg.weightKeyword), Keyword),
     SourceList(WeightedList(graph, cfg.weightGraph), Graph),
     SourceList(WeightedList(temporal, cfg.weightTemporal), Temporal)]
  }

  lemma {:induction false} ListsDivisible(cfg: Config, semantic: Ranks, keyword: Ranks, graph: Ranks, temporal: Ranks)
    requires NoZero(cfg.rrfK)
    ensures AllDivisible(Bare(ListsOf(cfg, semantic, keyword, graph, temporal)), cfg.rrfK)
  {
    AlwaysDivisible(Bare(ListsOf(cfg, semantic, keyword, graph, temporal)), cfg.rrfK);
  }

  /** Fusion returns only identifiers some arm listed. */
  lemma {:induction false} FusedIsOwned(memories: map<Id, Memory>, agent: Id, cfg: Config,
                     semantic: Ranks, keyword: Ranks, graph: Ranks, temporal: Ranks, fused: seq<Fused>)
    requires
      var lists := Bare(ListsOf(cfg, semantic, keyword, graph, temporal));
      AllDivisible(lists, cfg.rrfK) && IsFusion(Erased(fused), lists, cfg.rrfK)
    requires ArmOwned(memories, agent, semantic) && ArmOwned(memories, agent, keyword)
    requires ArmOwned(memories, agent, graph) && ArmOwned(memories, agent, temporal)
    ensures AllOwned(memories, agent, Map(FusedId, fused)) && Distinct(Map(FusedId, fused))
  {
    var lists := Bare(ListsOf(cfg, semantic, keyword, graph, temporal));
    assert Map(FusedId, fused) == Map(IdOf, Erased(fused));
    forall i | 0 <= i < |fused| ensures Owned(memories, agent, fused[i].id) {
      assert Map(IdOf, Erased(fused))[i] == fused[i].id;
      assert Mentions(lists, fused[i].id);
      var l :| 0 <= l < |lists| && Lists(lists[l].items, fused[i].id);
      var m :| 0 <= m < |lists[l].items| && lists[l].items[m].0 == fused[i].id;
      assert RankedIds(lists[l].items)[m] == fused[i].id;
    }
  }

  /** So with positive k and non-negative weights, no recall ever clamps a score. */
  lemma {:induction false} RecallNeverClamps(memories: map<Id, Memory>, agent: Id, cfg: Config,
                          semantic: Ranks, keyword: Ranks, graph: Ranks, temporal: Ranks, id: Id)
    requires cfg.rrfK > 0.0
    requires cfg.weightSemantic >= 0.0 && cfg.weightKeyword >= 0.0 && cfg.weightGraph >= 0.0 && cfg.weightTemporal >= 0.0
    requires ArmOwned(memories, agent, semantic) && ArmOwned(memories, agent, keyword)
    requires ArmOwned(memories, agent, graph) && ArmOwned(memories, agent, temporal)
    ensures
      var lists := Bare(ListsOf(cfg, semantic, keyword, graph, temporal));
      && AllDivisible(lists, cfg.rrfK)
      && 0.0 <= Score(lists, cfg.rrfK, id)
             <= (cfg.weightSemantic + cfg.weightKeyword + cfg.weightGraph + cfg.weightTemporal) / cfg.rrfK
  {
    var lists := Bare(ListsOf(cfg, semantic, keyword, graph, temporal));
    ListsDivisible(cfg, semantic, keyword, graph, temporal);
    ScoreIsBounded(lists, cfg.rrfK, id);
    FourWeights(lists);
  }

  lemma {:induction false} FourWeights(lists: seq<WeightedList>)
    requires |lists| == 4
    ensures TotalWeight(lists) == lists[0].weight + lists[1].weight + lists[2].weight + lists[3].weight
  {
    assert lists[..3][..2] == lists[..2] && lists[..2][..1] == lists[..1] && lists[..1][..0] == [];
    assert TotalWeight(lists[..1]) == lists[0].weight;
    assert TotalWeight(lists[..2]) == lists[0].weight + lists[1].weight;
    assert TotalWeight(lists[..3]) == lists[0].weight + lists[1].weight + lists[2].weight;
  }

  // ---- `recall` ----------------------------------------------------------------------------

  /** The query text as the engine's foreign parts see it: its embedding, and full-text matching. */
  datatype Query = Query(embedding: Embedding, matches: string -> bool, rank: Id -> real)

  const WINDOW := 30 * DAY

  /** Stage 5: one access per result, the i-th at `clock(i)`. */
  function TouchedAll(db: Db, ids: seq<Id>, clock: nat -> int): Db
    decreases |ids|
  {
    if ids == [] then db
    else var n := |ids| - 1; Touched(TouchedAll(db, ids[..n], clock), ids[n], clock(n))
  }

  /** What the four arms read: chunk embeddings, keyword hits, the links of each seed, recent rows. */
  datatype Fetched = Fetched(chunks: seq<Chunk>, hits: seq<Id>, links: seq<seq<Link>>, recent: seq<Memory>) {
    function Seeds(sqrt: real -> real, query: Embedding): seq<Id> {
      if Blank(query) then [] else Nearest(sqrt, query, chunks, SEEDS)
    }

    function Semantic(sqrt: real -> real, query: Embedding, limit: nat): Ranks {
      SemanticArm(sqrt, query, chunks, limit)
    }

    function Graph(sqrt: real -> real, query: Embedding, limit: nat): Ranks
      requires |links| == |Seeds(sqrt, query)|
    {
      GraphRanks(AddSeeds(NOTHING, Seeds(sqrt, query), links), limit)
    }
  }

  /** `fused` is the fusion, with sources, of the four arms over what `t` read from `db`. */
  ghost predicate Searched(db: Db, cfg: Config, sqrt: real -> real, query: Query, agent: Id, now: int, t: Fetched, fused: seq<Fused>)
    requires NoZero(cfg.rrfK)
  {
    var limit := cfg.candidatesPerArm;
    && Listing(t.chunks, db.chunks, OfLive(db.memories, agent), ChunkId)
    && BestHits(t.hits, db.fts, query.matches, query.rank, agent, limit)
    && LinkRows(t.links, db.links, t.Seeds(sqrt, query.embedding))
    && Recent(t.recent, db.memories, agent, now - WINDOW, now, limit)
    && var lists := ListsOf(cfg, t.Semantic(sqrt, query.embedding, limit), Ranked(t.hits),
                            t.Graph(sqrt, query.embedding, limit), Ranked(Map(MemoryId, t.recent)));
       && AllDivisible(Bare(lists), cfg.rrfK)
       && IsFusion(Erased(fused), Bare(lists), cfg.rrfK)
       && forall i :: 0 <= i < |fused| ==> fused[i].sources == SourcesOf(lists, fused[i].id)
  }

  class MemoryRetriever {
    const storage: SqliteMemoryStorage
    const cfg: Config
    const exp: real -> real
    const sqrt: real -> real

    constructor (storage: SqliteMemoryStorage, cfg: Config, exp: real -> real, sqrt: real -> real)
      ensures this.storage == storage && this.cfg == cfg && this.exp == exp && this.sqrt == sqrt
    {
      this.storage := storage;
      this.cfg := cfg;
      this.exp := exp;
      this.sqrt := sqrt;
    }

    /** Stages 2 and 3. */
    method Search(query: Query, agent: Id, now: int) returns (fused: seq<Fused>, t: Fetched)
      requires storage.Valid() && NoZero(cfg.rrfK)
      ensures Searched(storage.Contents(), cfg, sqrt, query, agent, now, t, fused)
    {
      var limit := cfg.candidatesPerArm;
      var chunks := storage.GetAllChunkEmbeddings(agent);
      var semantic := RetrieveSemantic(sqrt, query.embedding, chunks, limit);
      var hits := storage.FtsSearch(query.matches, query.rank, agent, limit);
      var graph, links := RetrieveGraph(storage, sqrt, query.embedding, chunks, limit);
      var recent := storage.ListByTimeRange(agent, now - WINDOW, now, limit);
      t := Fetched(chunks, hits, links, recent);
      var lists := ListsOf(cfg, semantic, Ranked(hits), graph, Ranked(Map(MemoryId, recent)));
      AlwaysDivisible(Bare(lists), cfg.rrfK);
      fused := RrfFuseWithSources(lists, cfg.rrfK);
    }

    method RecordAll(ids: seq<Id>, clock: nat -> int)
      requires storage.Valid()
      modifies storage`memories
      ensures storage.Valid()
      ensures storage.Contents() == TouchedAll(old(storage.Contents()), ids, clock)
    {
      for i := 0 to |ids|
        invariant storage.Valid()
        invariant storage.Contents() == TouchedAll(old(storage.Contents()), ids[..i], clock)
      {
        assert ids[..i + 1][..i] == ids[..i];
        storage.RecordAccess(ids[i], clock(i));
      }
      assert ids[..|ids|] == ids;
    }

    /** Run alone: the candidates are the fusion of the four arms, the results keep `Promise` for the
        memories as they were, all are the agent's when the database is consistent, and the only change
        is one recorded access per result. */
    method Recall(query: Query, agent: Id, limit: nat, searched: int, scored: int, clock: nat -> int)
      returns (results: seq<Result>, fused: seq<Fused>, t: Fetched)
      requires storage.Valid() && NoZero(cfg.rrfK)
      modifies storage`memories
      ensures storage.Valid()
      ensures Searched(old(storage.Contents()), cfg, sqrt, query, agent, searched, t, fused)
      ensures Promise(results, Scorer(cfg, exp, scored), old(storage.memories), fused, limit)
      ensures old(Consistent(storage.Contents())) ==>
        forall i :: 0 <= i < |results| ==> results[i].memory.Live(agent)
      ensures storage.Contents() == TouchedAll(old(storage.Contents()), Map(ResultId, results), clock)
    {
      fused, t := Search(query, agent, searched);
      SearchIsOwned(storage.Contents(), cfg, sqrt, query, agent, searched, t, fused);
      results := RankCandidates(fused, agent, limit, scored);
      RecordAll(Map(ResultId, results), clock);
    }

    /** Stages 4 and 5: fetch, filter, rate, sort and truncate. */
    method RankCandidates(fused: seq<Fused>, ghost agent: Id, limit: nat, scored: int) returns (results: seq<Result>)
      requires storage.Valid() && cfg.rrfK != 0.0 && Distinct(Map(FusedId, fused))
      ensures Promise(results, Scorer(cfg, exp, scored), storage.memories, fused, limit)
      ensures AllOwned(storage.memories, agent, Map(FusedId, fused)) ==>
        forall i :: 0 <= i < |results| ==> results[i].memory.Live(agent)
    {
      var rows := storage.GetMemories(Map(FusedId, fused));
      var s := Scorer(cfg, exp, scored);
      var picked := PickAndRate(s, storage.memories, rows, fused);
      results := Truncated(SortDesc(picked, Effective), limit);
      FinalKeepsPromise(s, storage.memories, fused, limit);
      if AllOwned(storage.memories, agent, Map(FusedId, fused)) {
        FinalIsLive(s, storage.memories, fused, limit, agent);
      }
    }
  }

  lemma {:induction false} SearchIsOwned(db: Db, cfg: Config, sqrt: real -> real, query: Query, agent: Id,
        now: int, t: Fetched, fused: seq<Fused>)
    requires NoZero(cfg.rrfK) && Searched(db, cfg, sqrt, query, agent, now, t, fused)
    ensures Distinct(Map(FusedId, fused))
    ensures Consistent(db) ==> AllOwned(db.memories, agent, Map(FusedId, fused))
  {
    assert Map(FusedId, fused) == Map(IdOf, Erased(fused));
    if Consistent(db) {
      var limit := cfg.candidatesPerArm;
      var seeds := t.Seeds(sqrt, query.embedding);
      SemanticArmIsOwned(db.memories, agent, sqrt, query.embedding, t.chunks, limit);
      KeywordArmIsOwned(db, agent, t.hits, limit);
      NearestIsOwned(db.memories, agent, sqrt, query.embedding, t.chunks, SEEDS);
      AddSeedsIsOwned(db, agent, seeds, t.links);
      GraphArmIsOwned(db.memories, agent, AddSeeds(NOTHING, seeds, t.links), limit);
      TemporalArmIsOwned(db.memories, agent, t.recent, now - WINDOW, now, limit);
      FusedIsOwned(db.memories, agent, cfg, t.Semantic(sqrt, query.embedding, limit), Ranked(t.hits),
                   t.Graph(sqrt, query.embedding, limit), Ranked(Map(MemoryId, t.recent)), fused);
    }
  }

  lemma {:induction false} FinalIsLive(s: Scorer, memories: map<Id, Memory>, fused: seq<Fused>, limit: nat, agent: Id)
    requires s.cfg.rrfK != 0.0 && AllOwned(memories, agent, Map(FusedId, fused))
    ensures forall i :: 0 <= i < |Final(s, memories, fused, limit)| ==>
              Final(s, memories, fused, limit)[i].memory.Live(agent)
  {
    var final := Final(s, memories, fused, limit);
    FinalRows(s, memories, fused, limit);
    forall i | 0 <= i < |final| ensures final[i].memory.Live(agent) {
      var p := (r: Result) => FromRow(r, s, memories, fused);
      assert p(final[i]);
      var j :| 0 <= j < |fused| && fused[j].id == final[i].memoryId && final[i] == s.Rate(memories[fused[j].id], fused[j]);
      assert Owned(memories, agent, Map(FusedId, fused)[j]);
    }
  }
}

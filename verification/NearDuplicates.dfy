/** Similarity links between memories: `detect_near_duplicates`
    (crates/rustykrab-memory/src/lifecycle.rs).

    The method is proved to apply exactly the writes of `AllWrites`; what those writes do to the
    link graph is then a matter of lemmas. */
module NearDuplicates {
  import opened Options
  import opened MemoryTypes
  import opened Ranking
  import opened Similarity
  import opened Storage

  const MAX_DEDUP_MEMORIES := 500
  const MAX_LINKS := 50

  type Labelled = (Id, Embedding)

  datatype Detector = Detector(cfg: Config, sqrt: real -> real) {
    function Sim(a: Embedding, b: Embedding): real {
      Cosine(sqrt, a, b)
    }

    predicate Close(sim: real) {
      sim >= cfg.dedupAutoMergeThreshold || sim >= cfg.dedupDistinctThreshold
    }
  }

  // ---- The writes --------------------------------------------------------------------------

  function Arrow(a: Id, b: Id, weight: real): Link {
    Link(LinkKey(a, b, SemanticSimilar), weight)
  }

  function Pair(a: Id, b: Id, weight: real): seq<Link> {
    [Arrow(a, b, weight), Arrow(b, a, weight)]
  }

  /** The inner loop for memory `i` from `j` on, `n` pairs having been linked already. */
  function RowWrites(d: Detector, embs: seq<Labelled>, i: nat, j: nat, n: nat): seq<Link>
    requires i < |embs|
    decreases |embs| - j
  {
    if j >= |embs| || n >= MAX_LINKS then []
    else
      var sim := d.Sim(embs[i].1, embs[j].1);
      if d.Close(sim)
      then Pair(embs[i].0, embs[j].0, sim) + RowWrites(d, embs, i, j + 1, n + 1)
      else RowWrites(d, embs, i, j + 1, n)
  }

  function AllWrites(d: Detector, embs: seq<Labelled>, i: nat): seq<Link>
    decreases |embs| - i
  {
    if i >= |embs| then [] else RowWrites(d, embs, i, i + 1, 0) + AllWrites(d, embs, i + 1)
  }

  function LinkedAll(links: map<LinkKey, Link>, writes: seq<Link>): map<LinkKey, Link>
    decreases |writes|
  {
    if writes == [] then links
    else LinkedAll(Linked(links, writes[0]), writes[1..])
  }

  lemma {:induction false} LinkedInTurn(links: map<LinkKey, Link>, a: seq<Link>, b: seq<Link>)
    ensures LinkedAll(links, a + b) == LinkedAll(LinkedAll(links, a), b)
    decreases |a|
  {
    if a == [] {
      assert a + b == b;
    } else {
      assert (a + b)[1..] == a[1..] + b;
      LinkedInTurn(Linked(links, a[0]), a[1..], b);
    }
  }

  lemma {:induction false} LinkedPair(links: map<LinkKey, Link>, done: seq<Link>, a: Id, b: Id, w: real)
    ensures LinkedAll(links, done + Pair(a, b, w))
      == Linked(Linked(LinkedAll(links, done), Arrow(a, b, w)), Arrow(b, a, w))
  {
    LinkedInTurn(links, done, Pair(a, b, w));
    var now := LinkedAll(links, done);
    assert Pair(a, b, w)[1..] == [Arrow(b, a, w)];
    assert LinkedAll(now, Pair(a, b, w)) == LinkedAll(Linked(now, Arrow(a, b, w)), [Arrow(b, a, w)]);
  }

  // ---- The candidates ----------------------------------------------------------------------

  /** The first chunk of a memory: one of least index.  `None` when there is none or its embedding
      is empty. */
  ghost predicate FirstEmbedding(chunks: map<Id, Chunk>, id: Id, e: Option<Embedding>) {
    match e
    case Some(emb) =>
      emb != [] && exists c :: IsFirst(chunks, id, c) && chunks[c].embedding == emb
    case None =>
      || (exists c :: IsFirst(chunks, id, c) && chunks[c].embedding == [])
      || (forall c :: c in chunks ==> chunks[c].memory != id)
  }

  ghost predicate IsFirst(chunks: map<Id, Chunk>, id: Id, c: Id) {
    && c in chunks && chunks[c].memory == id
    && (forall k :: k in chunks && chunks[k].memory == id ==> chunks[c].index <= chunks[k].index)
  }

  /** The labelled embeddings collected from `mems`, in order. */
  ghost predicate Loaded(mems: seq<Memory>, chunks: map<Id, Chunk>, embs: seq<Labelled>)
    decreases |mems|
  {
    if mems == [] then embs == []
    else
      var n := |mems| - 1;
      || (FirstEmbedding(chunks, mems[n].id, None) && Loaded(mems[..n], chunks, embs))
      || (&& embs != []
          && embs[|embs| - 1].0 == mems[n].id
          && FirstEmbedding(chunks, mems[n].id, Some(embs[|embs| - 1].1))
          && Loaded(mems[..n], chunks, embs[..|embs| - 1]))
  }

  method FirstOf(storage: SqliteMemoryStorage, id: Id) returns (e: Option<Embedding>)
    requires storage.Valid()
    ensures FirstEmbedding(storage.chunks, id, e)
  {
    var rows := storage.GetChunksForMemory(id);
    if rows == [] {
      assert Map(ChunkId, rows) == [];
      return None;
    }
    forall k | k in storage.chunks && storage.chunks[k].memory == id
      ensures rows[0].index <= storage.chunks[k].index
    {
      var i :| 0 <= i < |rows| && Map(ChunkId, rows)[i] == k;
      assert i > 0 ==> ByIndex(rows[0]) >= ByIndex(rows[i]);
    }
    assert IsFirst(storage.chunks, id, rows[0].id);
    e := if rows[0].embedding != [] then Some(rows[0].embedding) else None;
  }

  lemma {:induction false} LoadedSnoc(mems: seq<Memory>, n: nat, chunks: map<Id, Chunk>, embs: seq<Labelled>,
        first: Option<Embedding>)
    requires n < |mems| && Loaded(mems[..n], chunks, embs) && FirstEmbedding(chunks, mems[n].id, first)
    ensures Loaded(mems[..n + 1], chunks, if first.Some? then embs + [(mems[n].id, first.value)] else embs)
  {
    assert mems[..n + 1][..n] == mems[..n];
    if first.Some? {
      assert (embs + [(mems[n].id, first.value)])[..|embs|] == embs;
    }
  }

  method Load(storage: SqliteMemoryStorage, mems: seq<Memory>) returns (embs: seq<Labelled>)
    requires storage.Valid()
    ensures Loaded(Truncated(mems, MAX_DEDUP_MEMORIES), storage.chunks, embs)
  {
    embs := [];
    var taken := Truncated(mems, MAX_DEDUP_MEMORIES);
    for i := 0 to |taken|
      invariant Loaded(taken[..i], storage.chunks, embs)
    {
      var first := FirstOf(storage, taken[i].id);
      LoadedSnoc(taken, i, storage.chunks, embs, first);
      if first.Some? {
        embs := embs + [(taken[i].id, first.value)];
      }
    }
    assert taken[..|taken|] == taken;
  }

  // ---- The method --------------------------------------------------------------------------

  lemma {:induction false} RowSplits(d: Detector, embs: seq<Labelled>, i: nat, j: nat, n: nat, done: seq<Link>)
    requires i < |embs| && j < |embs| && n < MAX_LINKS && d.Close(d.Sim(embs[i].1, embs[j].1))
    ensures done + RowWrites(d, embs, i, j, n)
      == done + Pair(embs[i].0, embs[j].0, d.Sim(embs[i].1, embs[j].1)) + RowWrites(d, embs, i, j + 1, n + 1)
  {
  }

  /** The two upserts of a pair. */
  method LinkBoth(storage: SqliteMemoryStorage, ghost start: map<LinkKey, Link>, ghost done: seq<Link>,
                  a: Id, b: Id, sim: real)
    requires storage.Valid() && storage.links == LinkedAll(start, done)
    modifies storage`links
    ensures storage.Valid() && storage.links == LinkedAll(start, done + Pair(a, b, sim))
  {
    LinkedPair(start, done, a, b, sim);
    storage.UpsertLink(Arrow(a, b, sim));
    storage.UpsertLink(Arrow(b, a, sim));
  }

  /** The pairs of one outer memory. */
  method LinkRow(storage: SqliteMemoryStorage, cfg: Config, sqrt: real -> real, embs: seq<Labelled>, i: nat)
    returns (count: nat)
    requires storage.Valid() && i < |embs|
    modifies storage`links
    ensures storage.Valid()
    ensures storage.links == LinkedAll(old(storage.links), RowWrites(Detector(cfg, sqrt), embs, i, i + 1, 0))
    ensures count == |RowWrites(Detector(cfg, sqrt), embs, i, i + 1, 0)|
  {
    ghost var d, done := Detector(cfg, sqrt), [];
    var linksForI := 0;
    count := 0;
    var j := i + 1;
    while j < |embs|
      invariant i < j <= |embs| || j == i + 1
      invariant storage.Valid()
      invariant storage.links == LinkedAll(old(storage.links), done)
      invariant done + RowWrites(d, embs, i, j, linksForI) == RowWrites(d, embs, i, i + 1, 0)
      invariant count == |done|
    {
      if linksForI >= MAX_LINKS {
        break;
      }
      var sim := CosineSimilarity(sqrt, embs[i].1, embs[j].1);
      var a, b := embs[i].0, embs[j].0;
      if sim >= cfg.dedupAutoMergeThreshold {
        LinkBoth(storage, old(storage.links), done, a, b, sim);
        RowSplits(d, embs, i, j, linksForI, done);
        done := done + Pair(a, b, sim);
        count := count + 2;
        linksForI := linksForI + 1;
      } else if sim >= cfg.dedupDistinctThreshold {
        LinkBoth(storage, old(storage.links), done, a, b, sim);
        RowSplits(d, embs, i, j, linksForI, done);
        done := done + Pair(a, b, sim);
        count := count + 2;
        linksForI := linksForI + 1;
      }
      j := j + 1;
    }
    assert done + [] == done;
  }

  lemma {:induction false} AllSplits(d: Detector, embs: seq<Labelled>, i: nat, done: seq<Link>)
    requires i < |embs|
    ensures done + AllWrites(d, embs, i) == done + RowWrites(d, embs, i, i + 1, 0) + AllWrites(d, embs, i + 1)
  {
  }

  /** The candidates `embs` are the embeddings of the agent's live memories, the first 500 of them
      as the query happened to return them. */
  method DetectNearDuplicates(storage: SqliteMemoryStorage, cfg: Config, sqrt: real -> real, agent: Id)
    returns (count: nat, ghost mems: seq<Memory>, ghost embs: seq<Labelled>)
    requires storage.Valid()
    modifies storage`links
    ensures storage.Valid()
    ensures Listing(mems, storage.memories, IsLive(agent), MemoryId)
    ensures Loaded(Truncated(if |mems| < 2 then [] else mems, MAX_DEDUP_MEMORIES), storage.chunks, embs)
    ensures storage.links == LinkedAll(old(storage.links), AllWrites(Detector(cfg, sqrt), embs, 0))
    ensures count == |AllWrites(Detector(cfg, sqrt), embs, 0)|
  {
    var memories := storage.ListRetrievable(agent);
    mems := memories;
    if |memories| < 2 {
      embs := [];
      return 0, mems, embs;
    }
    var candidates := Load(storage, memories);
    embs := candidates;
    ghost var d, done := Detector(cfg, sqrt), [];
    count := 0;
    for i := 0 to |candidates|
      invariant storage.Valid()
      invariant storage.links == LinkedAll(old(storage.links), done)
      invariant done + AllWrites(d, candidates, i) == AllWrites(d, candidates, 0)
      invariant count == |done|
    {
      ghost var row := RowWrites(d, candidates, i, i + 1, 0);
      LinkedInTurn(old(storage.links), done, row);
      AllSplits(d, candidates, i, done);
      var linked := LinkRow(storage, cfg, sqrt, candidates, i);
      done := done + row;
      count := count + linked;
    }
    assert done + [] == done;
  }

  // ---- What the writes are -----------------------------------------------------------------

  function Label(l: Labelled): Id { l.0 }

  ghost predicate AllFrom(embs: seq<Labelled>, ids: seq<Id>) {
    forall i :: 0 <= i < |embs| ==> embs[i].0 in ids
  }

  lemma {:induction false} LastLabelIsNew(ids: seq<Id>, embs: seq<Labelled>)
    requires ids != [] && embs != [] && Distinct(ids) && ids[|ids| - 1] == embs[|embs| - 1].0
    requires Distinct(Map(Label, embs[..|embs| - 1]))
    requires AllFrom(embs[..|embs| - 1], ids[..|ids| - 1])
    ensures Distinct(Map(Label, embs)) && AllFrom(embs, ids)
  {
    var n, k := |ids| - 1, |embs| - 1;
    assert Map(Label, embs[..k]) == Map(Label, embs)[..k];
    forall i | 0 <= i < k ensures embs[i].0 != embs[k].0 && embs[i].0 in ids {
      assert embs[..k][i] == embs[i];
      var m :| 0 <= m < n && ids[..n][m] == embs[i].0;
      assert ids[m] != ids[n];
    }
  }

  /** Candidates are distinct live memories of the agent. */
  lemma {:induction false} LoadedIds(mems: seq<Memory>, chunks: map<Id, Chunk>, embs: seq<Labelled>)
    requires Loaded(mems, chunks, embs) && Distinct(Map(MemoryId, mems))
    ensures Distinct(Map(Label, embs))
    ensures |embs| <= |mems|
    ensures AllFrom(embs, Map(MemoryId, mems))
    decreases |mems|
  {
    if mems != [] {
      var n, ids := |mems| - 1, Map(MemoryId, mems);
      assert Map(MemoryId, mems[..n]) == ids[..n];
      if FirstEmbedding(chunks, mems[n].id, None) && Loaded(mems[..n], chunks, embs) {
        LoadedIds(mems[..n], chunks, embs);
      } else {
        var k := |embs| - 1;
        LoadedIds(mems[..n], chunks, embs[..k]);
        LastLabelIsNew(ids, embs);
      }
    }
  }

  /** `w` links two different candidates, in either direction, with their similarity. */
  ghost predicate JoinsPair(d: Detector, embs: seq<Labelled>, i: nat, j: nat, w: Link) {
    && i < j < |embs|
    && w.weight == d.Sim(embs[i].1, embs[j].1)
    && d.Close(w.weight)
    && (w == Arrow(embs[i].0, embs[j].0, w.weight) || w == Arrow(embs[j].0, embs[i].0, w.weight))
  }

  lemma {:induction false} RowJoins(d: Detector, embs: seq<Labelled>, i: nat, j: nat, n: nat, k: nat)
    returns (other: nat)
    requires i < j && i < |embs| && k < |RowWrites(d, embs, i, j, n)|
    ensures j <= other && JoinsPair(d, embs, i, other, RowWrites(d, embs, i, j, n)[k])
    decreases |embs| - j
  {
    if d.Close(d.Sim(embs[i].1, embs[j].1)) {
      if k < 2 {
        other := j;
      } else {
        other := RowJoins(d, embs, i, j + 1, n + 1, k - 2);
      }
    } else {
      other := RowJoins(d, embs, i, j + 1, n, k);
    }
  }

  lemma {:induction false} WritesJoin(d: Detector, embs: seq<Labelled>, from: nat, k: nat)
    returns (i: nat, j: nat)
    requires k < |AllWrites(d, embs, from)|
    ensures from <= i && JoinsPair(d, embs, i, j, AllWrites(d, embs, from)[k])
    decreases |embs| - from
  {
    var row := RowWrites(d, embs, from, from + 1, 0);
    if k < |row| {
      i := from;
      j := RowJoins(d, embs, from, from + 1, 0, k);
    } else {
      i, j := WritesJoin(d, embs, from + 1, k - |row|);
    }
  }

  /** At most 50 pairs, so 100 directed links, are written while one memory is the outer one. */
  lemma {:induction false} RowIsBounded(d: Detector, embs: seq<Labelled>, i: nat, j: nat, n: nat)
    requires i < |embs| && n <= MAX_LINKS
    ensures |RowWrites(d, embs, i, j, n)| <= 2 * (MAX_LINKS - n)
    decreases |embs| - j
  {
    if j < |embs| && n < MAX_LINKS {
      if d.Close(d.Sim(embs[i].1, embs[j].1)) {
        RowIsBounded(d, embs, i, j + 1, n + 1);
      } else {
        RowIsBounded(d, embs, i, j + 1, n);
      }
    }
  }

  ghost predicate DistinctKeys(writes: seq<Link>) {
    forall i, j :: 0 <= i < j < |writes| ==> writes[i].key != writes[j].key
  }

  lemma {:induction false} KeysAppend(a: seq<Link>, b: seq<Link>)
    requires DistinctKeys(a) && DistinctKeys(b)
    requires forall i, j :: 0 <= i < |a| && 0 <= j < |b| ==> a[i].key != b[j].key
    ensures DistinctKeys(a + b)
  {
  }

  lemma {:induction false} RowKeys(d: Detector, embs: seq<Labelled>, i: nat, j: nat, n: nat)
    requires i < j && i < |embs| && Distinct(Map(Label, embs))
    ensures DistinctKeys(RowWrites(d, embs, i, j, n))
    decreases |embs| - j
  {
    if j < |embs| && n < MAX_LINKS {
      var ids := Map(Label, embs);
      if d.Close(d.Sim(embs[i].1, embs[j].1)) {
        RowKeys(d, embs, i, j + 1, n + 1);
        var rest := RowWrites(d, embs, i, j + 1, n + 1);
        var pair := Pair(embs[i].0, embs[j].0, d.Sim(embs[i].1, embs[j].1));
        assert ids[i] != ids[j];
        forall k | 0 <= k < |rest| ensures rest[k].key != pair[0].key && rest[k].key != pair[1].key {
          var other := RowJoins(d, embs, i, j + 1, n + 1, k);
          assert ids[j] != ids[other] && ids[i] != ids[other];
        }
        KeysAppend(pair, rest);
      } else {
        RowKeys(d, embs, i, j + 1, n);
      }
    }
  }

  /** No link is written twice in one run, so the returned count is the number of links written. */
  lemma {:induction false} WritesAreDistinct(d: Detector, embs: seq<Labelled>, from: nat)
    requires Distinct(Map(Label, embs))
    ensures DistinctKeys(AllWrites(d, embs, from))
    decreases |embs| - from
  {
    if from < |embs| {
      var ids := Map(Label, embs);
      var row, rest := RowWrites(d, embs, from, from + 1, 0), AllWrites(d, embs, from + 1);
      RowKeys(d, embs, from, from + 1, 0);
      WritesAreDistinct(d, embs, from + 1);
      forall x, y | 0 <= x < |row| && 0 <= y < |rest| ensures row[x].key != rest[y].key {
        var other := RowJoins(d, embs, from, from + 1, 0, x);
        var i, j := WritesJoin(d, embs, from + 1, y);
        assert ids[from] != ids[i] && ids[from] != ids[j];
      }
      KeysAppend(row, rest);
    }
  }

  // ---- What they do to the graph -----------------------------------------------------------

  function Mirror(k: LinkKey): LinkKey {
    LinkKey(k.target, k.source, k.kind)
  }

  ghost predicate HasMirror(links: map<LinkKey, Link>, k: LinkKey)
    requires k in links
  {
    Mirror(k) in links && links[Mirror(k)].weight == links[k].weight
  }

  /** Every similarity link has its reverse, with the same weight. */
  ghost predicate Symmetric(links: map<LinkKey, Link>) {
    forall k :: k in links && k.kind.SemanticSimilar? ==> HasMirror(links, k)
  }

  ghost predicate NoSelfLinks(links: map<LinkKey, Link>) {
    forall k :: k in links ==> k.source != k.target
  }

  lemma {:induction false} PairKeepsSymmetry(links: map<LinkKey, Link>, a: Id, b: Id, w: real)
    requires Symmetric(links)
    ensures Symmetric(Linked(Linked(links, Arrow(a, b, w)), Arrow(b, a, w)))
  {
    var after := Linked(Linked(links, Arrow(a, b, w)), Arrow(b, a, w));
    forall k | k in after && k.kind.SemanticSimilar? ensures HasMirror(after, k) {
      var there, back := Arrow(a, b, w).key, Arrow(b, a, w).key;
      assert Mirror(there) == back && Mirror(Mirror(k)) == k;
      if k != there && k != back {
        assert k in links && HasMirror(links, k);
      }
    }
  }

  lemma {:induction false} RowKeepsSymmetry(links: map<LinkKey, Link>, d: Detector, embs: seq<Labelled>, i: nat,
        j: nat, n: nat)
    requires i < |embs| && Symmetric(links)
    ensures Symmetric(LinkedAll(links, RowWrites(d, embs, i, j, n)))
    decreases |embs| - j
  {
    if j < |embs| && n < MAX_LINKS {
      var a, b, sim := embs[i].0, embs[j].0, d.Sim(embs[i].1, embs[j].1);
      if d.Close(sim) {
        var rest := RowWrites(d, embs, i, j + 1, n + 1);
        PairKeepsSymmetry(links, a, b, sim);
        assert [] + Pair(a, b, sim) == Pair(a, b, sim);
        LinkedPair(links, [], a, b, sim);
        RowKeepsSymmetry(LinkedAll(links, Pair(a, b, sim)), d, embs, i, j + 1, n + 1);
        LinkedInTurn(links, Pair(a, b, sim), rest);
      } else {
        RowKeepsSymmetry(links, d, embs, i, j + 1, n);
      }
    }
  }

  /** Detection keeps the similarity graph symmetric, with equal weights. */
  lemma {:induction false} DetectionKeepsSymmetry(links: map<LinkKey, Link>, d: Detector, embs: seq<Labelled>,
        from: nat)
    requires Symmetric(links)
    ensures Symmetric(LinkedAll(links, AllWrites(d, embs, from)))
    decreases |embs| - from
  {
    if from < |embs| {
      var row := RowWrites(d, embs, from, from + 1, 0);
      RowKeepsSymmetry(links, d, embs, from, from + 1, 0);
      DetectionKeepsSymmetry(LinkedAll(links, row), d, embs, from + 1);
      LinkedInTurn(links, row, AllWrites(d, embs, from + 1));
    }
  }

  /** The key of every link afterwards is an old one or a written one. */
  lemma {:induction false} LinksComeFromWrites(links: map<LinkKey, Link>, writes: seq<Link>, k: LinkKey)
    requires k in LinkedAll(links, writes)
    ensures (k in links && LinkedAll(links, writes)[k] == links[k])
      || exists i :: 0 <= i < |writes| && writes[i].key == k && LinkedAll(links, writes)[k] == writes[i]
    decreases |writes|
  {
    if writes != [] {
      LinksComeFromWrites(Linked(links, writes[0]), writes[1..], k);
      if exists i :: 0 <= i < |writes| - 1 && writes[1..][i].key == k && LinkedAll(links, writes)[k] == writes[1..][i] {
        var i :| 0 <= i < |writes| - 1 && writes[1..][i].key == k && LinkedAll(links, writes)[k] == writes[1..][i];
        assert writes[i + 1].key == k;
      }
    }
  }

  /** All weights in the graph are cosines: they stay in [-1, 1]. */
  ghost predicate UnitWeights(links: map<LinkKey, Link>) {
    forall k :: k in links ==> -1.0 <= links[k].weight <= 1.0
  }

  /** Detection adds no self-link and no weight outside [-1, 1], and links only candidates. */
  lemma {:induction false} DetectionKeepsLinks(links: map<LinkKey, Link>, d: Detector, embs: seq<Labelled>)
    requires Distinct(Map(Label, embs)) && IsSqrt(d.sqrt)
    requires NoSelfLinks(links) && UnitWeights(links)
    ensures
      var after := LinkedAll(links, AllWrites(d, embs, 0));
      && NoSelfLinks(after) && UnitWeights(after)
      && (forall k :: k in after && k !in links ==> k.source in Map(Label, embs) && k.target in Map(Label, embs))
  {
    var writes, ids := AllWrites(d, embs, 0), Map(Label, embs);
    var after := LinkedAll(links, writes);
    forall k | k in after
      ensures k.source != k.target && -1.0 <= after[k].weight <= 1.0
      ensures k !in links ==> k.source in ids && k.target in ids
    {
      LinksComeFromWrites(links, writes, k);
      if !(k in links && after[k] == links[k]) {
        var x :| 0 <= x < |writes| && writes[x].key == k && after[k] == writes[x];
        var i, j := WritesJoin(d, embs, 0, x);
        assert ids[i] != ids[j];
        CosineInUnit(d.sqrt, embs[i].1, embs[j].1);
      }
    }
  }
}

/** The memory database (crates/rustykrab-memory/src/storage.rs).

    Four tables as four map-valued fields.  Every method holds the connection for its whole body,
    so each is one atomic step; each is proved against a function on `Db`, the value of the four
    tables, and the engine's interleavings are stated over those functions.  A `SELECT` without
    `ORDER BY` returns its rows in an arbitrary order. */
module Storage {
  import opened Options
  import opened MemoryTypes
  import opened Ranking
  import opened Similarity

  datatype Chunk = Chunk(id: Id, memory: Id, index: nat, embedding: Embedding)

  datatype FtsRow = FtsRow(agent: Id, content: string)

  datatype LinkType = SemanticSimilar | EntityCooccurrence | CausalChain | Consolidation | Contradicts

  // The primary key of `memory_links`.
  datatype LinkKey = LinkKey(source: Id, target: Id, kind: LinkType)

  datatype Link = Link(key: LinkKey, weight: real)

  datatype Db = Db(
    memories: map<Id, Memory>,
    chunks: map<Id, Chunk>,
    fts: map<Id, FtsRow>,
    links: map<LinkKey, Link>)

  function ChunkId(c: Chunk): Id { c.id }
  function KeyOfLink(l: Link): LinkKey { l.key }

  /** Every row sits under its primary key. */
  ghost predicate Keyed(db: Db) {
    && (forall id :: id in db.memories ==> db.memories[id].id == id)
    && (forall id :: id in db.chunks ==> db.chunks[id].id == id)
    && (forall k :: k in db.links ==> db.links[k].key == k)
  }

  // ---- What each statement does to the tables ----------------------------------------------

  /** `INSERT ... ON CONFLICT(id) DO UPDATE`: identity, content and creation time of an existing
      row are never overwritten. */
  function Upserted(db: Db, m: Memory): Db {
    var row :=
      if m.id in db.memories then
        var was := db.memories[m.id];
        m.(agent := was.agent, content := was.content, contentHash := was.contentHash, created := was.created)
      else m;
    db.(memories := db.memories[m.id := row])
  }

  function Touched(db: Db, id: Id, now: int): Db {
    if id !in db.memories then db
    else
      var m := db.memories[id];
      db.(memories := db.memories[id := m.(accessCount := m.accessCount + 1, lastAccessed := Some(now))])
  }

  function Invalidated(db: Db, id: Id, successor: Option<Id>, now: int): Db {
    if id !in db.memories then db
    else
      var m := db.memories[id];
      db.(memories := db.memories[id :=
        m.(isValid := false, stage := Tombstone, invalidatedBy := successor, invalidatedAt := Some(now))])
  }

  /** One `UPDATE memories SET lifecycle_stage`; it looks at neither validity nor the old stage. */
  function Restaged(memories: map<Id, Memory>, id: Id, stage: Stage): map<Id, Memory> {
    if id in memories then memories[id := memories[id].(stage := stage)] else memories
  }

  function BatchRestaged(memories: map<Id, Memory>, updates: seq<(Id, Stage)>): map<Id, Memory>
    decreases |updates|
  {
    if updates == [] then memories
    else
      var n := |updates| - 1;
      Restaged(BatchRestaged(memories, updates[..n]), updates[n].0, updates[n].1)
  }

  function Affected(memories: map<Id, Memory>, updates: seq<(Id, Stage)>): nat
    decreases |updates|
  {
    if updates == [] then 0
    else
      var n := |updates| - 1;
      Affected(memories, updates[..n]) + if updates[n].0 in memories then 1 else 0
  }

  function WithChunks(chunks: map<Id, Chunk>, rows: seq<Chunk>): map<Id, Chunk>
    decreases |rows|
  {
    if rows == [] then chunks
    else
      var n := |rows| - 1;
      WithChunks(chunks, rows[..n])[rows[n].id := rows[n]]
  }

  /** `chunks.memory_id REFERENCES memories(id)`, with foreign keys switched on. */
  predicate Referenced(memories: map<Id, Memory>, rows: seq<Chunk>) {
    forall i :: 0 <= i < |rows| ==> rows[i].memory in memories
  }

  /** Delete, then insert: one row per memory. */
  function Indexed(db: Db, id: Id, agent: Id, content: string): Db {
    db.(fts := db.fts[id := FtsRow(agent, content)])
  }

  function Linked(links: map<LinkKey, Link>, link: Link): map<LinkKey, Link> {
    links[link.key := link]
  }

  // ---- What each query returns -------------------------------------------------------------

  /** Exactly the rows that satisfy `p`, each once. */
  ghost predicate Listing<K, R>(rows: seq<R>, table: map<K, R>, p: R -> bool, key: R -> K) {
    && Distinct(Map(key, rows))
    && (forall i :: 0 <= i < |rows| ==> key(rows[i]) in table && table[key(rows[i])] == rows[i] && p(rows[i]))
    && (forall k :: k in table && p(table[k]) ==> k in Map(key, rows))
  }

  function Created(m: Memory): real { m.created as real }

  function ByIndex(c: Chunk): real { 0.0 - c.index as real }

  /** `ORDER BY created_at DESC LIMIT ?` over some listing of the live rows in the range. */
  ghost predicate Recent(rows: seq<Memory>, memories: map<Id, Memory>, agent: Id, from: int, to: int, limit: nat) {
    exists all :: Listing(all, memories, InRange(agent, from, to), MemoryId)
               && rows == Truncated(SortDesc(all, Created), limit)
  }

  function InRange(agent: Id, from: int, to: int): Memory -> bool {
    (m: Memory) => m.Live(agent) && from <= m.created <= to
  }

  function IsLive(agent: Id): Memory -> bool {
    (m: Memory) => m.Live(agent)
  }

  function InStage(agent: Id, stage: Stage): Memory -> bool {
    (m: Memory) => m.agent == agent && m.stage == stage && m.isValid
  }

  function InSession(agent: Id, session: Id, stage: Stage): Memory -> bool {
    (m: Memory) => m.agent == agent && m.stage == stage && m.isValid && m.session == Some(session)
  }

  function IdIn(ids: seq<Id>): Memory -> bool {
    (m: Memory) => m.id in ids
  }

  function OfMemory(id: Id): Chunk -> bool {
    (c: Chunk) => c.memory == id
  }

  /** The join behind `get_all_chunk_embeddings`. */
  function OfLive(memories: map<Id, Memory>, agent: Id): Chunk -> bool {
    (c: Chunk) => c.memory in memories && memories[c.memory].Live(agent) && c.embedding != []
  }

  function FromSource(source: Id): Link -> bool {
    (l: Link) => l.key.source == source
  }

  /** All that recall relies on from a keyword search. */
  ghost predicate Hits(ids: seq<Id>, fts: map<Id, FtsRow>, agent: Id, limit: nat) {
    && |ids| <= limit
    && Distinct(ids)
    && (forall i :: 0 <= i < |ids| ==> ids[i] in fts && fts[ids[i]].agent == agent)
  }

  /** The best-ranked matching rows of the agent; all of them when there are fewer than `limit`. */
  ghost predicate BestHits(ids: seq<Id>, fts: map<Id, FtsRow>, matches: string -> bool, rank: Id -> real, agent: Id, limit: nat)
  {
    && Hits(ids, fts, agent, limit)
    && (forall i :: 0 <= i < |ids| ==> matches(fts[ids[i]].content))
    && (forall i, j :: 0 <= i < j < |ids| ==> rank(ids[i]) <= rank(ids[j]))
    && (|ids| < limit ==>
          forall id :: id in fts && fts[id].agent == agent && matches(fts[id].content) ==> id in ids)
  }

  /** The rows of a table that satisfy `p`, in an arbitrary order. */
  method Select<K(==), R>(table: map<K, R>, p: R -> bool, key: R -> K) returns (rows: seq<R>)
    requires forall k :: k in table ==> key(table[k]) == k
    ensures Listing(rows, table, p, key)
  {
    rows := [];
    var left := table.Keys;
    while left != {}
      invariant left <= table.Keys
      invariant Distinct(Map(key, rows))
      invariant forall i :: 0 <= i < |rows| ==>
        key(rows[i]) in table && key(rows[i]) !in left && table[key(rows[i])] == rows[i] && p(rows[i])
      invariant forall k :: k in table && k !in left && p(table[k]) ==> k in Map(key, rows)
      decreases |left|
    {
      var k :| k in left;
      left := left - {k};
      if p(table[k]) {
        ghost var keys := Map(key, rows);
        rows := rows + [table[k]];
        assert Map(key, rows) == keys + [k];
      }
    }
  }

  class SqliteMemoryStorage {
    var memories: map<Id, Memory>
    var chunks: map<Id, Chunk>
    var fts: map<Id, FtsRow>
    var links: map<LinkKey, Link>

    ghost function Contents(): Db
      reads this
    {
      Db(memories, chunks, fts, links)
    }

    ghost predicate Valid()
      reads this
    {
      Keyed(Contents())
    }

    constructor ()
      ensures Valid() && Contents() == Db(map[], map[], map[], map[])
    {
      memories, chunks, fts, links := map[], map[], map[], map[];
    }

    method UpsertMemory(m: Memory)
      requires Valid()
      modifies this`memories
      ensures Valid() && Contents() == Upserted(old(Contents()), m)
    {
      if m.id in memories {
        var was := memories[m.id];
        memories := memories[m.id :=
          m.(agent := was.agent, content := was.content, contentHash := was.contentHash, created := was.created)];
      } else {
        memories := memories[m.id := m];
      }
    }

    method RecordAccess(id: Id, now: int)
      requires Valid()
      modifies this`memories
      ensures Valid() && Contents() == Touched(old(Contents()), id, now)
    {
      if id in memories {
        var m := memories[id];
        memories := memories[id := m.(accessCount := m.accessCount + 1, lastAccessed := Some(now))];
      }
    }

    method Invalidate(id: Id, successor: Option<Id>, now: int)
      requires Valid()
      modifies this`memories
      ensures Valid() && Contents() == Invalidated(old(Contents()), id, successor, now)
    {
      if id in memories {
        var m := memories[id];
        memories := memories[id :=
          m.(isValid := false, stage := Tombstone, invalidatedBy := successor, invalidatedAt := Some(now))];
      }
    }

    method BatchUpdateStages(updates: seq<(Id, Stage)>) returns (count: nat)
      requires Valid()
      modifies this`memories
      ensures Valid()
      ensures Contents() == old(Contents()).(memories := BatchRestaged(old(memories), updates))
      ensures count == Affected(old(memories), updates)
    {
      count := 0;
      for i := 0 to |updates|
        invariant Valid() && memories.Keys == old(memories).Keys
        invariant memories == BatchRestaged(old(memories), updates[..i])
        invariant count == Affected(old(memories), updates[..i])
      {
        assert updates[..i + 1][..i] == updates[..i];
        var (id, stage) := updates[i];
        if id in memories {
          memories := memories[id := memories[id].(stage := stage)];
          count := count + 1;
        }
      }
      assert updates[..|updates|] == updates;
    }

    /** One transaction: either every row is stored or, when one refers to no memory, none is. */
    method StoreChunks(rows: seq<Chunk>) returns (ok: bool)
      requires Valid()
      modifies this`chunks
      ensures Valid()
      ensures ok == Referenced(memories, rows)
      ensures Contents() == old(Contents()).(chunks := if ok then WithChunks(old(chunks), rows) else old(chunks))
    {
      var stored := chunks;
      for i := 0 to |rows|
        invariant stored == WithChunks(old(chunks), rows[..i])
        invariant forall id :: id in stored ==> stored[id].id == id
        invariant forall j :: 0 <= j < i ==> rows[j].memory in memories
      {
        if rows[i].memory !in memories {
          return false;
        }
        assert rows[..i + 1][..i] == rows[..i];
        stored := stored[rows[i].id := rows[i]];
      }
      assert rows[..|rows|] == rows;
      chunks := stored;
      ok := true;
    }

    method FtsIndex(id: Id, agent: Id, content: string)
      modifies this`fts
      ensures Contents() == Indexed(old(Contents()), id, agent, content)
    {
      fts := fts - {id};
      fts := fts[id := FtsRow(agent, content)];
      assert fts == old(fts)[id := FtsRow(agent, content)];
    }

    method UpsertLink(link: Link)
      requires Valid()
      modifies this`links
      ensures Valid() && Contents() == old(Contents()).(links := Linked(old(links), link))
    {
      links := links[link.key := link];
    }

    // ---- Queries ---------------------------------------------------------------------------

    method GetMemories(ids: seq<Id>) returns (rows: seq<Memory>)
      requires Valid()
      ensures Listing(rows, memories, IdIn(ids), MemoryId)
    {
      rows := Select(memories, IdIn(ids), MemoryId);
    }

    /** `LIMIT 1`: any valid memory of the agent with that hash, whatever its stage. */
    method FindByContentHash(agent: Id, hash: string) returns (found: Option<Memory>)
      requires Valid()
      ensures match found
        case Some(m) => m.id in memories && memories[m.id] == m && m.agent == agent && m.contentHash == hash && m.isValid
        case None => forall id :: id in memories && memories[id].isValid && memories[id].agent == agent ==>
                       memories[id].contentHash != hash
    {
      var rows := Select(memories, (m: Memory) => m.agent == agent && m.contentHash == hash && m.isValid, MemoryId);
      found := if rows == [] then None else Some(rows[0]);
    }

    method ListByStage(agent: Id, stage: Stage) returns (rows: seq<Memory>)
      requires Valid()
      ensures Listing(rows, memories, InStage(agent, stage), MemoryId)
    {
      rows := Select(memories, InStage(agent, stage), MemoryId);
    }

    method ListBySessionAndStage(agent: Id, session: Id, stage: Stage) returns (rows: seq<Memory>)
      requires Valid()
      ensures Listing(rows, memories, InSession(agent, session, stage), MemoryId)
    {
      rows := Select(memories, InSession(agent, session, stage), MemoryId);
    }

    method ListRetrievable(agent: Id) returns (rows: seq<Memory>)
      requires Valid()
      ensures Listing(rows, memories, IsLive(agent), MemoryId)
    {
      rows := Select(memories, IsLive(agent), MemoryId);
    }

    method ListByTimeRange(agent: Id, from: int, to: int, limit: nat) returns (rows: seq<Memory>)
      requires Valid()
      ensures Recent(rows, memories, agent, from, to, limit)
    {
      var all := Select(memories, InRange(agent, from, to), MemoryId);
      rows := Truncated(SortDesc(all, Created), limit);
    }

    method GetChunksForMemory(id: Id) returns (rows: seq<Chunk>)
      requires Valid()
      ensures Listing(rows, chunks, OfMemory(id), ChunkId)
      ensures Descending(rows, ByIndex)
    {
      var all := Select(chunks, OfMemory(id), ChunkId);
      rows := SortDesc(all, ByIndex);
      SortedListing(all, chunks, OfMemory(id), ChunkId, ByIndex);
    }

    method GetAllChunkEmbeddings(agent: Id) returns (rows: seq<Chunk>)
      requires Valid()
      ensures Listing(rows, chunks, OfLive(memories, agent), ChunkId)
    {
      rows := Select(chunks, OfLive(memories, agent), ChunkId);
    }

    method GetLinksFrom(source: Id) returns (rows: seq<Link>)
      requires Valid()
      ensures Listing(rows, links, FromSource(source), KeyOfLink)
    {
      rows := Select(links, FromSource(source), KeyOfLink);
    }

    /** `matches` and `rank` stand for FTS5's MATCH and its ranking; smaller ranks come first. */
    method FtsSearch(matches: string -> bool, rank: Id -> real, agent: Id, limit: nat) returns (ids: seq<Id>)
      ensures BestHits(ids, fts, matches, rank, agent, limit)
    {
      var rows: map<Id, Id> := map id | id in fts && fts[id].agent == agent && matches(fts[id].content) :: id;
      var all := Select(rows, (id: Id) => true, (id: Id) => id);
      var key := (id: Id) => 0.0 - rank(id);
      var sorted := SortDesc(all, key);
      SortedListing(all, rows, (id: Id) => true, (id: Id) => id, key);
      assert Map((id: Id) => id, sorted) == sorted;
      ids := Truncated(sorted, limit);
      forall i, j | 0 <= i < j < |ids| ensures rank(ids[i]) <= rank(ids[j]) {
        assert key(sorted[i]) >= key(sorted[j]);
      }
    }
  }

  lemma {:induction false} SortedListing<K, R>(rows: seq<R>, table: map<K, R>, p: R -> bool,
        key: R -> K, order: R -> real)
    requires Listing(rows, table, p, key)
    ensures Listing(SortDesc(rows, order), table, p, key)
    ensures Descending(SortDesc(rows, order), order)
  {
    var sorted := SortDesc(rows, order);
    SortDescSorts(rows, order);
    SortKeepsMapped(rows, order, key);
    SortKeepsAll(rows, order, (r: R) => key(r) in table && table[key(r)] == r && p(r));
    SameElements(Map(key, rows), Map(key, sorted));
  }
}

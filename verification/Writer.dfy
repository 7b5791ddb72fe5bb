/** Writing memories (crates/rustykrab-memory/src/writer.rs): `retain_with_stage`, the duplicate
    check it spawns, and `rebuild_fts_index`, each run alone here and interleaved in `Engine`.

    SHA-256, importance scoring and chunking-then-embedding are functions of the text; identifiers
    of new rows are parameters that must be new. */
module Writer {
  import opened Options
  import opened MemoryTypes
  import opened Ranking
  import opened Similarity
  import opened Storage
  import opened NearDuplicates
  import opened Retrieval

  datatype Turn = Turn(agent: Id, content: string, session: Id, stage: Stage)

  /** The foreign functions the writer calls on a text. */
  datatype Text = Text(
    hash: string -> string,
    importance: string -> real,
    embed: string -> seq<Embedding>,
    decayRate: real)

  function NewMemory(text: Text, turn: Turn, id: Id, now: int): Memory {
    Memory(id, turn.agent, turn.content, text.hash(turn.content), Some(turn.session), turn.stage,
           text.importance(turn.content), text.decayRate, 0, None, now, true, None, None)
  }

  /** Rows for the chunks of `m`, indexed from 0, under new identifiers. */
  ghost predicate NewChunks(rows: seq<Chunk>, m: Memory, embeddings: seq<Embedding>, chunks: map<Id, Chunk>) {
    && |rows| == |embeddings|
    && Distinct(Map(ChunkId, rows))
    && (forall i :: 0 <= i < |rows| ==>
          rows[i].id !in chunks && rows[i].memory == m.id && rows[i].index == i && rows[i].embedding == embeddings[i])
  }

  /** Chunk `k` belongs to another live memory of the agent and is close enough. */
  ghost predicate IsDuplicate(db: Db, agent: Id, k: Id, id: Id, emb: Embedding, sqrt: real -> real, threshold: real) {
    && k in db.chunks && OfLive(db.memories, agent)(db.chunks[k])
    && Duplicates(db.chunks[k], id, emb, sqrt, threshold)
  }

  /** A valid memory of the agent with this content hash, in any stage. */
  predicate Matches(memories: map<Id, Memory>, id: Id, agent: Id, hash: string) {
    id in memories && memories[id].agent == agent && memories[id].contentHash == hash && memories[id].isValid
  }

  function Stored(text: Text, db: Db, turn: Turn, id: Id, rows: seq<Chunk>, now: int): Db {
    var inserted := Upserted(db, NewMemory(text, turn, id, now));
    Indexed(inserted.(chunks := WithChunks(inserted.chunks, rows)), id, turn.agent, turn.content)
  }

  /** Another live memory whose chunk is close enough to `emb`. */
  predicate Duplicates(c: Chunk, id: Id, emb: Embedding, sqrt: real -> real, threshold: real) {
    c.memory != id && Cosine(sqrt, emb, c.embedding) >= threshold
  }

  class MemoryWriter {
    const storage: SqliteMemoryStorage
    const text: Text
    const sqrt: real -> real
    const threshold: real

    constructor (storage: SqliteMemoryStorage, text: Text, sqrt: real -> real, threshold: real)
      ensures this.storage == storage && this.text == text && this.sqrt == sqrt && this.threshold == threshold
    {
      this.storage := storage;
      this.text := text;
      this.sqrt := sqrt;
      this.threshold := threshold;
    }

    /** An exact duplicate is only touched; anything else is stored, chunked and indexed as `newId`. */
    method RetainWithStage(turn: Turn, newId: Id, chunkIds: nat -> Id, now: int)
      returns (id: Id, ghost rows: seq<Chunk>)
      requires storage.Valid()
      requires newId !in storage.memories
      requires forall i :: 0 <= i < |text.embed(turn.content)| ==> chunkIds(i) !in storage.chunks
      requires forall i, j :: 0 <= i < j < |text.embed(turn.content)| ==> chunkIds(i) != chunkIds(j)
      modifies storage
      ensures storage.Valid()
      ensures
        var before, hash := old(storage.Contents()), text.hash(turn.content);
        || (Matches(before.memories, id, turn.agent, hash) && storage.Contents() == Touched(before, id, now))
        || (&& (forall k :: !Matches(before.memories, k, turn.agent, hash))
            && id == newId
            && NewChunks(rows, NewMemory(text, turn, id, now), text.embed(turn.content), before.chunks)
            && storage.Contents() == Stored(text, before, turn, id, rows, now))
    {
      var hash := text.hash(turn.content);
      rows := [];
      var existing := storage.FindByContentHash(turn.agent, hash);
      if existing.Some? {
        storage.RecordAccess(existing.value.id, now);
        return existing.value.id, [];
      }
      var m := NewMemory(text, turn, newId, now);
      storage.UpsertMemory(m);
      var embeddings := text.embed(turn.content);
      var chunks := [];
      if embeddings != [] {
        for i := 0 to |embeddings|
          invariant |chunks| == i
          invariant forall k :: 0 <= k < i ==> chunks[k] == Chunk(chunkIds(k), newId, k, embeddings[k])
        {
          chunks := chunks + [Chunk(chunkIds(i), newId, i, embeddings[i])];
        }
        var ok := storage.StoreChunks(chunks);
        assert ok;
      }
      rows := chunks;
      storage.FtsIndex(newId, turn.agent, turn.content);
      id := newId;
    }

    /** The spawned duplicate check: the new memory is invalidated in favour of some other live
        memory close to its first chunk, or nothing happens because there is none. */
    method CheckDuplicate(id: Id, agent: Id, now: int)
      requires storage.Valid()
      modifies storage`memories
      ensures storage.Valid()
      ensures
        var before := old(storage.Contents());
        || (exists emb, k :: FirstEmbedding(before.chunks, id, Some(emb)) && IsDuplicate(before, agent, k, id, emb, sqrt, threshold)
              && storage.Contents()
                 == Touched(Invalidated(before, id, Some(before.chunks[k].memory), now), before.chunks[k].memory, now))
        || (FirstEmbedding(before.chunks, id, None) && storage.Contents() == before)
        || (exists emb :: FirstEmbedding(before.chunks, id, Some(emb)) && storage.Contents() == before
              && forall k :: !IsDuplicate(before, agent, k, id, emb, sqrt, threshold))
    {
      var first := FirstOf(storage, id);
      if first.None? {
        return;
      }
      var rows := storage.GetAllChunkEmbeddings(agent);
      for i := 0 to |rows|
        invariant storage.Contents() == old(storage.Contents())
        invariant forall j :: 0 <= j < i ==> !Duplicates(rows[j], id, first.value, sqrt, threshold)
      {
        if rows[i].memory == id {
          continue;
        }
        var sim := CosineSimilarity(sqrt, first.value, rows[i].embedding);
        if sim >= threshold {
          assert IsDuplicate(storage.Contents(), agent, rows[i].id, id, first.value, sqrt, threshold);
          storage.Invalidate(id, Some(rows[i].memory), now);
          storage.RecordAccess(rows[i].memory, now);
          return;
        }
      }
      forall k ensures !IsDuplicate(storage.Contents(), agent, k, id, first.value, sqrt, threshold) {
        if k in storage.chunks && OfLive(storage.memories, agent)(storage.chunks[k]) {
          var i :| 0 <= i < |rows| && Map(ChunkId, rows)[i] == k;
          assert rows[i] == storage.chunks[k];
        }
      }
    }

    /** Every live memory of the agent gets the row its content deserves; all other rows stay, those
        of invalidated memories included. */
    method RebuildFtsIndex(agent: Id) returns (count: nat)
      requires storage.Valid()
      modifies storage`fts
      ensures storage.Valid()
      ensures forall id :: id in storage.fts <==>
        id in old(storage.fts) || (id in storage.memories && storage.memories[id].Live(agent))
      ensures forall id :: id in storage.fts ==>
        storage.fts[id]
        == (if id in storage.memories && storage.memories[id].Live(agent)
            then FtsRow(agent, storage.memories[id].content)
            else old(storage.fts)[id])
      ensures count == |set id | id in storage.memories && storage.memories[id].Live(agent)|
    {
      var rows := storage.ListRetrievable(agent);
      count := |rows|;
      ghost var ids := Map(MemoryId, rows);
      for i := 0 to |rows|
        invariant storage.memories == old(storage.memories) && storage.Valid()
        invariant forall id :: id in storage.fts <==> id in old(storage.fts) || id in ids[..i]
        invariant forall id :: id in storage.fts ==>
          storage.fts[id]
          == (if id in ids[..i] then FtsRow(agent, storage.memories[id].content) else old(storage.fts)[id])
      {
        assert ids[..i + 1] == ids[..i] + [rows[i].id];
        storage.FtsIndex(rows[i].id, agent, rows[i].content);
      }
      assert ids[..|rows|] == ids;
      ListingCount(rows, storage.memories, agent);
    }
  }

  lemma {:induction false} CountDistinct(ids: seq<Id>)
    requires Distinct(ids)
    ensures |set i | 0 <= i < |ids| :: ids[i]| == |ids|
  {
    if ids != [] {
      var n := |ids| - 1;
      CountDistinct(ids[..n]);
      assert (set i | 0 <= i < |ids| :: ids[i]) == (set i | 0 <= i < n :: ids[..n][i]) + {ids[n]};
    }
  }

  lemma {:induction false} ListingCount(rows: seq<Memory>, memories: map<Id, Memory>, agent: Id)
    requires Listing(rows, memories, IsLive(agent), MemoryId)
    ensures forall id :: id in Map(MemoryId, rows) <==> id in memories && memories[id].Live(agent)
    ensures |rows| == |set id | id in memories && memories[id].Live(agent)|
  {
    var ids := Map(MemoryId, rows);
    CountDistinct(ids);
    forall id | id in ids ensures id in memories && memories[id].Live(agent) {
      var i :| 0 <= i < |ids| && ids[i] == id;
      assert IsLive(agent)(rows[i]);
    }
    assert (set i | 0 <= i < |ids| :: ids[i]) == set id | id in memories && memories[id].Live(agent);
  }
}

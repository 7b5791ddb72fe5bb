/** What the writes of the memory engine leave in the columns (crates/rustykrab-memory/src/storage.rs
    and writer.rs), column by column, and over several writes. */
module StorageLaws {
  import opened Options
  import opened MemoryTypes
  import opened Ranking
  import opened Similarity
  import opened Storage
  import opened Retrieval
  import opened Writer

  // ---- One write ---------------------------------------------------------------------------

  /** Everything but the access columns is as before. */
  predicate SameButAccess(a: Memory, b: Memory) {
    b == a.(accessCount := b.accessCount, lastAccessed := b.lastAccessed)
  }

  /** An access is counted and dated, and nothing else changes anywhere. */
  lemma {:induction false} TouchCounts(db: Db, id: Id, now: int)
    ensures
      var after := Touched(db, id, now);
      && after.chunks == db.chunks && after.fts == db.fts && after.links == db.links
      && after.memories.Keys == db.memories.Keys
      && (forall k :: k in db.memories && k != id ==> after.memories[k] == db.memories[k])
      && (id in db.memories ==>
            && SameButAccess(db.memories[id], after.memories[id])
            && after.memories[id].accessCount == db.memories[id].accessCount + 1
            && after.memories[id].lastAccessed == Some(now))
  {
  }

  /** After a recall every returned memory has been accessed once more, the i-th at `clock(i)`, and no
      other row has changed. */
  lemma {:induction false} RecallCountsEachOnce(db: Db, ids: seq<Id>, clock: nat -> int)
    requires Distinct(ids)
    ensures
      var after := TouchedAll(db, ids, clock);
      && after.chunks == db.chunks && after.fts == db.fts && after.links == db.links
      && after.memories.Keys == db.memories.Keys
      && (forall k :: k in db.memories && k !in ids ==> after.memories[k] == db.memories[k])
      && (forall i :: 0 <= i < |ids| && ids[i] in db.memories ==>
            && SameButAccess(db.memories[ids[i]], after.memories[ids[i]])
            && after.memories[ids[i]].accessCount == db.memories[ids[i]].accessCount + 1
            && after.memories[ids[i]].lastAccessed == Some(clock(i)))
    decreases |ids|
  {
    if ids != [] {
      var n := |ids| - 1;
      var front := ids[..n];
      RecallCountsEachOnce(db, front, clock);
      TouchCounts(TouchedAll(db, front, clock), ids[n], clock(n));
      assert ids[n] !in front;
      assert forall i :: 0 <= i < n ==> front[i] == ids[i];
    }
  }

  /** An invalidated memory is found by nobody, names its successor, and keeps what it said. */
  lemma {:induction false} InvalidationHides(db: Db, id: Id, successor: Option<Id>, now: int, agent: Id)
    requires id in db.memories
    ensures
      var after := Invalidated(db, id, successor, now);
      && after.chunks == db.chunks && after.fts == db.fts && after.links == db.links
      && after.memories.Keys == db.memories.Keys
      && (forall k :: k in db.memories && k != id ==> after.memories[k] == db.memories[k])
      && var m, n := db.memories[id], after.memories[id];
         && !n.Live(agent) && !n.isValid && n.stage == Tombstone
         && n.invalidatedBy == successor && n.invalidatedAt == Some(now)
         && n == m.(isValid := n.isValid, stage := n.stage, invalidatedBy := n.invalidatedBy, invalidatedAt := n.invalidatedAt)
  {
  }

  /** Writing a row again keeps whose it is, what it says and when it was made, and takes over the rest. */
  lemma {:induction false} UpsertKeepsIdentity(db: Db, m: Memory)
    ensures
      var after := Upserted(db, m).memories;
      && after.Keys == db.memories.Keys + {m.id}
      && (forall k :: k in db.memories && k != m.id ==> after[k] == db.memories[k])
      && (m.id !in db.memories ==> after[m.id] == m)
      && (m.id in db.memories ==>
            var was, n := db.memories[m.id], after[m.id];
            && n.agent == was.agent && n.content == was.content && n.contentHash == was.contentHash && n.created == was.created
            && n == m.(agent := n.agent, content := n.content, contentHash := n.contentHash, created := n.created))
  {
  }

  // ---- Retaining ---------------------------------------------------------------------------

  lemma {:induction false} ChunksAreStored(chunks: map<Id, Chunk>, rows: seq<Chunk>, i: nat)
    requires Distinct(Map(ChunkId, rows)) && i < |rows|
    ensures rows[i].id in WithChunks(chunks, rows) && WithChunks(chunks, rows)[rows[i].id] == rows[i]
    decreases |rows|
  {
    var n := |rows| - 1;
    if i < n {
      assert Map(ChunkId, rows[..n]) == Map(ChunkId, rows)[..n];
      ChunksAreStored(chunks, rows[..n], i);
      assert Map(ChunkId, rows)[i] != Map(ChunkId, rows)[n];
    }
  }

  predicate SaysWhatWasSaid(m: Memory, turn: Turn) {
    m.agent == turn.agent && m.content == turn.content && m.session == Some(turn.session) && m.stage == turn.stage
  }

  predicate IsNew(m: Memory, now: int) {
    m.isValid && m.created == now && m.lastAccessed == None && m.accessCount == 0
  }

  /** A retained turn is a valid memory of its agent and session with its very words, its index row and
      one chunk per embedding, in order; nobody has accessed it yet. */
  lemma {:induction false} RetainedRow(text: Text, db: Db, turn: Turn, id: Id, rows: seq<Chunk>, now: int)
    requires id !in db.memories && NewChunks(rows, NewMemory(text, turn, id, now), text.embed(turn.content), db.chunks)
    ensures
      var after := Stored(text, db, turn, id, rows, now);
      && id in after.memories && after.memories[id].id == id
      && SaysWhatWasSaid(after.memories[id], turn) && IsNew(after.memories[id], now)
      && after.memories[id].contentHash == text.hash(turn.content)
      && after.memories[id].importance == text.importance(turn.content) && after.memories[id].decayRate == text.decayRate
      && (after.memories[id].Live(turn.agent) <==> turn.stage.IsRetrievable())
      && id in after.fts && after.fts[id] == FtsRow(turn.agent, turn.content)
      && |rows| == |text.embed(turn.content)|
      && forall i :: 0 <= i < |rows| ==>
           && rows[i].id in after.chunks && after.chunks[rows[i].id] == rows[i]
           && rows[i].memory == id && rows[i].index == i && rows[i].embedding == text.embed(turn.content)[i]
  {
    forall i | 0 <= i < |rows|
      ensures rows[i].id in WithChunks(db.chunks, rows) && WithChunks(db.chunks, rows)[rows[i].id] == rows[i]
    {
      ChunksAreStored(db.chunks, rows, i);
    }
  }

  /** So retaining the same words for the same agent again finds them, and is only an access. */
  lemma {:induction false} RetainingTwiceFindsIt(text: Text, db: Db, turn: Turn, again: Turn, id: Id, rows: seq<Chunk>,
        now: int)
    requires id !in db.memories && NewChunks(rows, NewMemory(text, turn, id, now), text.embed(turn.content), db.chunks)
    requires again.agent == turn.agent && again.content == turn.content
    ensures Matches(Stored(text, db, turn, id, rows, now).memories, id, again.agent, text.hash(again.content))
  {
    RetainedRow(text, db, turn, id, rows, now);
  }
}

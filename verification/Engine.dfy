/** The memory engine under concurrency: retain, the duplicate check it spawns, sweep,
    finalize, invalidate, link detection, index rebuilding and recall, interleaved at every storage
    call (crates/rustykrab-memory/src: writer.rs, lifecycle.rs, retrieval.rs over storage.rs).

    A task is where one such operation stands and what it remembers from the reads it has made.  A
    step of a task is one storage call, or a local decision; between two steps any other task may
    run.  `Inv` is the inductive invariant, and the theorems at the end hold of every run. */
module Engine {
  import opened Options
  import opened MemoryTypes
  import opened Ranking
  import opened Scoring
  import opened Similarity
  import opened Storage
  import opened Lifecycle
  import opened NearDuplicates
  import opened Retrieval
  import opened Writer
  import opened Runs

  datatype Env = Env(cfg: Config, exp: real -> real, sqrt: real -> real, text: Text)

  datatype Call = Call(agent: Id, limit: nat, query: Query)

  datatype Task =
    // `retain_with_stage`
    | RetainFind(turn: Turn)
    | RetainInsert(turn: Turn)
    | RetainChunks(row: Memory)
    | RetainIndex(row: Memory)
    // the duplicate check
    | DedupFirst(id: Id, agent: Id)
    | DedupScan(id: Id, agent: Id, emb: Embedding)
    | DedupInvalidate(id: Id, successor: Id)
    | Access(id: Id)
    // `sweep` and `finalize_session`
    | SweepWorking(agent: Id, rules: Rules)
    | SweepWriteWorking(agent: Id, rules: Rules, updates: seq<(Id, Stage)>)
    | SweepEpisodic(agent: Id, rules: Rules)
    | SweepWriteUp(agent: Id, rules: Rules, updates: seq<(Id, Stage)>, demotions: seq<(Id, Stage)>)
    | SweepWriteDown(agent: Id, rules: Rules, updates: seq<(Id, Stage)>)
    | SweepArchival(agent: Id, rules: Rules)
    | FinalizeRead(agent: Id, session: Id)
    | WriteStages(updates: seq<(Id, Stage)>)
    // `invalidate_memory`
    | InvalidateNow(id: Id, reason: Option<Id>)
    // `detect_near_duplicates`
    | DetectList(agent: Id)
    | DetectLoad(agent: Id, todo: seq<Memory>, embs: seq<Labelled>)
    | DetectLink(agent: Id, embs: seq<Labelled>, i: nat, j: nat, n: nat)
    | DetectReverse(agent: Id, embs: seq<Labelled>, i: nat, j: nat, n: nat)
    // `rebuild_fts_index`
    | RebuildList(agent: Id)
    | RebuildWrite(agent: Id, todo: seq<Memory>)
    // `recall`
    | RecallStart(call: Call)
    | Searching(call: Call, chunks: seq<Chunk>, keyword: Option<Ranks>, temporal: Option<Ranks>,
                graph: Option<Ranks>, found: Expansion, seeds: seq<Id>)
    | Fetching(call: Call, fused: seq<Fused>)
    | Recording(call: Call, results: seq<Result>, left: seq<Id>)
    | Returned(call: Call, results: seq<Result>)
    //
    | Finished
    | Stopped(at: Task)   // by an error, a cancellation or a crash

  datatype State = State(db: Db, tasks: seq<Task>)

  const EMPTY := State(Db(map[], map[], map[], map[]), [])

  predicate Initial(t: Task) {
    t.RetainFind? || t.SweepWorking? || t.FinalizeRead? || t.InvalidateNow? || t.DetectList? || t.RebuildList?
    || t.RecallStart?
  }

  // ---- Steps -------------------------------------------------------------------------------

  /** One step: from database and task to database, task and spawned tasks. */
  datatype Effect = Effect(db: Db, task: Task, spawned: seq<Task>)

  ghost predicate IsDuplicateIn(env: Env, db: Db, agent: Id, k: Id, id: Id, emb: Embedding) {
    IsDuplicate(db, agent, k, id, emb, env.sqrt, env.cfg.dedupAutoMergeThreshold)
  }

  ghost predicate RetainStep(env: Env, now: int, db: Db, t: Task, to: Effect) {
    match t
    case RetainFind(turn) =>
      var hash := env.text.hash(turn.content);
      || (exists id :: Matches(db.memories, id, turn.agent, hash) && to == Effect(db, Access(id), []))
      || ((forall id :: !Matches(db.memories, id, turn.agent, hash)) && to == Effect(db, RetainInsert(turn), []))
    case RetainInsert(turn) =>
      exists id :: id !in db.memories
        && to == Effect(Upserted(db, NewMemory(env.text, turn, id, now)), RetainChunks(NewMemory(env.text, turn, id, now)), [])
    case RetainChunks(m) =>
      exists rows :: NewChunks(rows, m, env.text.embed(m.content), db.chunks)
        && to == Effect(db.(chunks := WithChunks(db.chunks, rows)), RetainIndex(m), [])
    case RetainIndex(m) =>
      to == Effect(Indexed(db, m.id, m.agent, m.content), Finished, [DedupFirst(m.id, m.agent)])
    case DedupFirst(id, agent) =>
      exists e :: FirstEmbedding(db.chunks, id, e)
        && to == Effect(db, if e.Some? then DedupScan(id, agent, e.value) else Finished, [])
    case DedupScan(id, agent, emb) =>
      || (exists k :: IsDuplicateIn(env, db, agent, k, id, emb)
            && to == Effect(db, DedupInvalidate(id, db.chunks[k].memory), []))
      || ((forall k :: !IsDuplicateIn(env, db, agent, k, id, emb)) && to == Effect(db, Finished, []))
    case DedupInvalidate(id, successor) =>
      to == Effect(Invalidated(db, id, Some(successor), now), Access(successor), [])
    case Access(id) =>
      to == Effect(Touched(db, id, now), Finished, [])
    case InvalidateNow(id, reason) =>
      to == Effect(Invalidated(db, id, reason, now), Finished, [])
    case _ => false
  }

  ghost predicate LifecycleStep(env: Env, db: Db, t: Task, to: Effect) {
    match t
    case SweepWorking(agent, r) =>
      exists rows :: Listing(rows, db.memories, InStage(agent, Working), MemoryId)
        && to == Effect(db, SweepWriteWorking(agent, r, Chosen(rows, (m: Memory) => r.Idle(m), Episodic)), [])
    case SweepWriteWorking(agent, r, updates) =>
      to == Effect(db.(memories := BatchRestaged(db.memories, updates)), SweepEpisodic(agent, r), [])
    case SweepEpisodic(agent, r) =>
      exists rows :: Listing(rows, db.memories, InStage(agent, Episodic), MemoryId)
        && to == Effect(db, SweepWriteUp(agent, r, Chosen(rows, (m: Memory) => r.Promotes(m), Stage.Semantic),
                          Chosen(rows, (m: Memory) => !r.Promotes(m) && r.Demotes(m), Archival)), [])
    case SweepWriteUp(agent, r, updates, demotions) =>
      to == Effect(db.(memories := BatchRestaged(db.memories, updates)), SweepWriteDown(agent, r, demotions), [])
    case SweepWriteDown(agent, r, updates) =>
      to == Effect(db.(memories := BatchRestaged(db.memories, updates)), SweepArchival(agent, r), [])
    case SweepArchival(agent, r) =>
      exists rows :: Listing(rows, db.memories, InStage(agent, Archival), MemoryId)
        && to == Effect(db, WriteStages(Chosen(rows, (m: Memory) => r.Retires(m), Tombstone)), [])
    case FinalizeRead(agent, session) =>
      exists rows :: Listing(rows, db.memories, InSession(agent, session, Working), MemoryId)
        && to == Effect(db, WriteStages(Chosen(rows, (m: Memory) => true, Episodic)), [])
    case WriteStages(updates) =>
      to == Effect(db.(memories := BatchRestaged(db.memories, updates)), Finished, [])
    case _ => false
  }

  ghost predicate DetectStep(env: Env, db: Db, t: Task, to: Effect) {
    match t
    case DetectList(agent) =>
      exists rows :: Listing(rows, db.memories, IsLive(agent), MemoryId)
        && to == Effect(db, if |rows| < 2 then Finished
                            else DetectLoad(agent, Truncated(rows, MAX_DEDUP_MEMORIES), []), [])
    case DetectLoad(agent, todo, embs) =>
      if todo == [] then to == Effect(db, DetectLink(agent, embs, 0, 1, 0), [])
      else
        exists e :: FirstEmbedding(db.chunks, todo[0].id, e)
          && to == Effect(db, DetectLoad(agent, todo[1..],
                            if e.Some? then embs + [(todo[0].id, e.value)] else embs), [])
    case DetectLink(agent, embs, i, j, n) =>
      if i >= |embs| then to == Effect(db, Finished, [])
      else if j >= |embs| || n >= MAX_LINKS then to == Effect(db, DetectLink(agent, embs, i + 1, i + 2, 0), [])
      else
        var sim := Cosine(env.sqrt, embs[i].1, embs[j].1);
        if Detector(env.cfg, env.sqrt).Close(sim)
        then to == Effect(db.(links := Linked(db.links, Arrow(embs[i].0, embs[j].0, sim))), DetectReverse(agent, embs, i, j, n), [])
        else to == Effect(db, DetectLink(agent, embs, i, j + 1, n), [])
    case DetectReverse(agent, embs, i, j, n) =>
      i < |embs| && j < |embs|
      && to == Effect(db.(links := Linked(db.links, Arrow(embs[j].0, embs[i].0, Cosine(env.sqrt, embs[i].1, embs[j].1)))),
                      DetectLink(agent, embs, i, j + 1, n + 1), [])
    case RebuildList(agent) =>
      exists rows :: Listing(rows, db.memories, IsLive(agent), MemoryId) && to == Effect(db, RebuildWrite(agent, rows), [])
    case RebuildWrite(agent, todo) =>
      if todo == [] then to == Effect(db, Finished, [])
      else to == Effect(Indexed(db, todo[0].id, agent, todo[0].content), RebuildWrite(agent, todo[1..]), [])
    case _ => false
  }

  ghost predicate HitsOrNone(ids: seq<Id>, fts: map<Id, FtsRow>, agent: Id, limit: nat) {
    ids == [] || Hits(ids, fts, agent, limit)
  }

  ghost predicate RecentOrNone(rows: seq<Memory>, memories: map<Id, Memory>, agent: Id, limit: nat) {
    rows == [] || exists at :: RecentAt(rows, memories, agent, at, limit)
  }

  ghost predicate RecentAt(rows: seq<Memory>, memories: map<Id, Memory>, agent: Id, at: int, limit: nat) {
    Recent(rows, memories, agent, at - WINDOW, at, limit)
  }

  /** The three arms that read run in any order; one that fails contributes nothing. */
  ghost predicate ArmStep(env: Env, db: Db, t: Task, to: Effect)
    requires t.Searching?
  {
    var agent, limit := t.call.agent, env.cfg.candidatesPerArm;
    || (&& t.keyword.None?
        && exists ids :: HitsOrNone(ids, db.fts, agent, limit)
             && to == Effect(db, t.(keyword := Some(Ranked(ids))), []))
    || (&& t.temporal.None?
        && exists rows :: RecentOrNone(rows, db.memories, agent, limit)
             && to == Effect(db, t.(temporal := Some(Ranked(Map(MemoryId, rows)))), []))
    || (&& t.graph.None? && t.seeds != []
        && exists rows :: Listing(rows, db.links, FromSource(t.seeds[0]), KeyOfLink)
             && to == Effect(db, t.(found := AddSeed(t.found, t.seeds[0], rows), seeds := t.seeds[1..]), []))
    || (&& t.graph.None?
        && (|| to == Effect(db, t.(graph := Some([])), [])
            || (t.seeds == [] && to == Effect(db, t.(graph := Some(GraphRanks(t.found, limit))), []))))
  }

  ghost predicate RecallStep(env: Env, now: int, db: Db, t: Task, to: Effect)
    requires NoZero(env.cfg.rrfK)
  {
    match t
    case RecallStart(call) =>
      exists chunks :: Listing(chunks, db.chunks, OfLive(db.memories, call.agent), ChunkId)
        && to == Effect(db, Searching(call, chunks, None, None, None, NOTHING,
             if Blank(call.query.embedding) then [] else Nearest(env.sqrt, call.query.embedding, chunks, SEEDS)), [])
    case Searching(call, chunks, keyword, temporal, graph, _, _) =>
      if keyword.Some? && temporal.Some? && graph.Some? then
        var semantic := SemanticArm(env.sqrt, call.query.embedding, chunks, env.cfg.candidatesPerArm);
        var lists := Bare(ListsOf(env.cfg, semantic, keyword.value, graph.value, temporal.value));
        exists fused :: AllDivisible(lists, env.cfg.rrfK) && IsFusion(Erased(fused), lists, env.cfg.rrfK)
          && to == Effect(db, Fetching(call, fused), [])
      else ArmStep(env, db, t, to)
    case Fetching(call, fused) =>
      var results := Final(Scorer(env.cfg, env.exp, now), db.memories, fused, call.limit);
      to == Effect(db, Recording(call, results, Map(ResultId, results)), [])
    case Recording(call, results, left) =>
      if left == [] then to == Effect(db, Returned(call, results), [])
      else
        && (to.db == db || to.db == Touched(db, left[0], now))
        && to == Effect(to.db, Recording(call, results, left[1..]), [])
    case _ => false
  }

  ghost predicate TaskStep(env: Env, now: int, db: Db, t: Task, to: Effect)
    requires NoZero(env.cfg.rrfK)
  {
    || RetainStep(env, now, db, t, to)
    || LifecycleStep(env, db, t, to)
    || DetectStep(env, db, t, to)
    || RecallStep(env, now, db, t, to)
    || to == Effect(db, Stopped(t), [])
  }

  ghost predicate Moves(env: Env, s: State, s2: State, i: nat, now: int, to: Effect)
    requires NoZero(env.cfg.rrfK)
  {
    && i < |s.tasks|
    && TaskStep(env, now, s.db, s.tasks[i], to)
    && s2 == State(to.db, s.tasks[i := to.task] + to.spawned)
  }

  ghost predicate Next(env: Env, s: State, s2: State)
    requires NoZero(env.cfg.rrfK)
  {
    || (exists i, now, to :: Moves(env, s, s2, i, now, to))
    || (exists t :: Initial(t) && s2 == State(s.db, s.tasks + [t]))
  }

  /** A run of the engine from an empty database. */
  ghost predicate Run(env: Env, run: seq<State>)
    requires NoZero(env.cfg.rrfK)
  {
    && run != [] && run[0] == EMPTY
    && forall k :: 0 <= k < |run| - 1 ==> Next(env, run[k], run[k + 1])
  }

  // ---- The invariant -----------------------------------------------------------------------

  /** `embed` yields at least one embedding for the memory's content. */
  predicate Embeddable(env: Env, memories: map<Id, Memory>, id: Id) {
    id in memories && env.text.embed(memories[id].content) != []
  }

  function First(env: Env, memories: map<Id, Memory>, id: Id): Embedding
    requires Embeddable(env, memories, id)
  {
    env.text.embed(memories[id].content)[0]
  }

  /** A chunk row holds the embedding that its memory's content has at that index. */
  ghost predicate Faithful(env: Env, memories: map<Id, Memory>, c: Chunk) {
    && Embeddable(env, memories, c.memory)
    && c.index < |env.text.embed(memories[c.memory].content)|
    && c.embedding == env.text.embed(memories[c.memory].content)[c.index]
  }

  ghost predicate HasLeading(chunks: map<Id, Chunk>, id: Id) {
    exists c :: c in chunks && chunks[c].memory == id && chunks[c].index == 0
  }

  ghost predicate ChunksOk(env: Env, db: Db) {
    forall c :: c in db.chunks ==> Faithful(env, db.memories, db.chunks[c]) && HasLeading(db.chunks, db.chunks[c].memory)
  }

  /** A link's weight is the similarity of the two contents, and of nothing else. */
  ghost predicate WeightOk(env: Env, memories: map<Id, Memory>, l: Link) {
    && l.key.kind.SemanticSimilar?
    && Embeddable(env, memories, l.key.source) && Embeddable(env, memories, l.key.target)
    && l.weight == Cosine(env.sqrt, First(env, memories, l.key.source), First(env, memories, l.key.target))
  }

  ghost predicate LinksOk(env: Env, db: Db) {
    forall k :: k in db.links ==> WeightOk(env, db.memories, db.links[k])
  }

  ghost predicate DbInv(env: Env, db: Db) {
    Consistent(db) && ChunksOk(env, db) && LinksOk(env, db)
  }

  ghost predicate LabelOk(env: Env, memories: map<Id, Memory>, agent: Id, l: Labelled) {
    Owned(memories, agent, l.0) && Embeddable(env, memories, l.0) && l.1 == First(env, memories, l.0)
  }

  ghost predicate LabelsOk(env: Env, memories: map<Id, Memory>, agent: Id, embs: seq<Labelled>) {
    forall i :: 0 <= i < |embs| ==> LabelOk(env, memories, agent, embs[i])
  }

  /** The row as it was read, or written, is still the row of that memory. */
  ghost predicate RowKept(memories: map<Id, Memory>, m: Memory) {
    m.id in memories && memories[m.id].agent == m.agent && memories[m.id].content == m.content
  }

  ghost predicate RowsOk(memories: map<Id, Memory>, agent: Id, rows: seq<Memory>) {
    forall i :: 0 <= i < |rows| ==> Owned(memories, agent, rows[i].id)
  }

  ghost predicate ChunksOwned(memories: map<Id, Memory>, agent: Id, chunks: seq<Chunk>) {
    forall i :: 0 <= i < |chunks| ==> Owned(memories, agent, chunks[i].memory)
  }

  /** What recall promises: at most `limit` distinct results, best first, each a valid and retrievable
      memory of the calling agent as it was read. */
  ghost predicate Kept(call: Call, results: seq<Result>) {
    && |results| <= call.limit
    && Distinct(Map(ResultId, results))
    && Descending(results, Effective)
    && (forall i :: 0 <= i < |results| ==> results[i].memory.Live(call.agent))
  }

  function Forward(embs: seq<Labelled>, i: nat, j: nat): LinkKey
    requires i < |embs| && j < |embs|
  {
    LinkKey(embs[i].0, embs[j].0, SemanticSimilar)
  }

  ghost predicate TaskInv(env: Env, db: Db, t: Task) {
    match t
    case RetainChunks(m) => RowKept(db.memories, m)
    case RetainIndex(m) => RowKept(db.memories, m)
    case DetectLoad(agent, todo, embs) =>
      && RowsOk(db.memories, agent, todo) && LabelsOk(env, db.memories, agent, embs)
      && Distinct(Map(Label, embs) + Map(MemoryId, todo))
    case DetectLink(agent, embs, i, j, n) =>
      LabelsOk(env, db.memories, agent, embs) && Distinct(Map(Label, embs)) && i < j
    case DetectReverse(agent, embs, i, j, n) =>
      && LabelsOk(env, db.memories, agent, embs) && Distinct(Map(Label, embs))
      && i < j < |embs| && Forward(embs, i, j) in db.links
    case RebuildWrite(agent, todo) => RowsOk(db.memories, agent, todo)
    case Searching(call, chunks, keyword, temporal, graph, found, seeds) =>
      && ChunksOwned(db.memories, call.agent, chunks)
      && (keyword.Some? ==> ArmOwned(db.memories, call.agent, keyword.value))
      && (temporal.Some? ==> ArmOwned(db.memories, call.agent, temporal.value))
      && (graph.Some? ==> ArmOwned(db.memories, call.agent, graph.value))
      && AllSeenOwned(db.memories, call.agent, found) && Tidy(found)
      && AllOwned(db.memories, call.agent, seeds)
    case Fetching(call, fused) =>
      AllOwned(db.memories, call.agent, Map(FusedId, fused)) && Distinct(Map(FusedId, fused))
    case Recording(call, results, _) => Kept(call, results)
    case Returned(call, results) => Kept(call, results)
    case Stopped(at) => TaskInv(env, db, at)
    case _ => true
  }

  ghost predicate TasksInv(env: Env, db: Db, tasks: seq<Task>) {
    forall i :: 0 <= i < |tasks| ==> TaskInv(env, db, tasks[i])
  }

  ghost predicate Inv(env: Env, s: State) {
    DbInv(env, s.db) && TasksInv(env, s.db, s.tasks)
  }

  // ---- What never changes in the database --------------------------------------------------

  ghost predicate SameOrigin(a: Memory, b: Memory) {
    a.id == b.id && a.agent == b.agent && a.content == b.content && (b.isValid ==> a.isValid)
  }

  /** Memories are never deleted, keep their agent and content, and never become valid again; links
      are never deleted. */
  ghost predicate Grows(db: Db, db2: Db) {
    && (forall id :: id in db.memories ==> id in db2.memories && SameOrigin(db.memories[id], db2.memories[id]))
    && (forall k :: k in db.links ==> k in db2.links)
  }

  lemma {:induction false} TaskInvIsStable(env: Env, db: Db, db2: Db, t: Task)
    requires TaskInv(env, db, t) && Grows(db, db2)
    ensures TaskInv(env, db2, t)
    decreases t
  {
    match t
    case Stopped(at) => TaskInvIsStable(env, db, db2, at);
    case DetectLoad(agent, todo, embs) =>
      RowsAreStable(db, db2, agent, todo);
      LabelsAreStable(env, db, db2, agent, embs);
    case DetectLink(agent, embs, _, _, _) => LabelsAreStable(env, db, db2, agent, embs);
    case DetectReverse(agent, embs, _, _, _) => LabelsAreStable(env, db, db2, agent, embs);
    case RebuildWrite(agent, todo) => RowsAreStable(db, db2, agent, todo);
    case Searching(_, _, _, _, _, _, _) => SearchIsStable(env, db, db2, t);
    case Fetching(call, fused) => OwnedIsStable(db, db2, call.agent, Map(FusedId, fused));
    case _ =>
  }

  lemma {:induction false} OwnedIsStable(db: Db, db2: Db, agent: Id, ids: seq<Id>)
    requires AllOwned(db.memories, agent, ids) && Grows(db, db2)
    ensures AllOwned(db2.memories, agent, ids)
  {
    forall i | 0 <= i < |ids| ensures Owned(db2.memories, agent, ids[i]) {
      assert Owned(db.memories, agent, ids[i]);
    }
  }

  lemma {:induction false} RowsAreStable(db: Db, db2: Db, agent: Id, rows: seq<Memory>)
    requires RowsOk(db.memories, agent, rows) && Grows(db, db2)
    ensures RowsOk(db2.memories, agent, rows)
  {
    forall i | 0 <= i < |rows| ensures Owned(db2.memories, agent, rows[i].id) {
      assert Owned(db.memories, agent, rows[i].id);
    }
  }

  lemma {:induction false} LabelsAreStable(env: Env, db: Db, db2: Db, agent: Id, embs: seq<Labelled>)
    requires LabelsOk(env, db.memories, agent, embs) && Grows(db, db2)
    ensures LabelsOk(env, db2.memories, agent, embs)
  {
    forall i | 0 <= i < |embs| ensures LabelOk(env, db2.memories, agent, embs[i]) {
      assert LabelOk(env, db.memories, agent, embs[i]);
    }
  }

  lemma {:induction false} SearchIsStable(env: Env, db: Db, db2: Db, t: Task)
    requires t.Searching? && TaskInv(env, db, t) && Grows(db, db2)
    ensures TaskInv(env, db2, t)
  {
    forall id | Owned(db.memories, t.call.agent, id) ensures Owned(db2.memories, t.call.agent, id) {
    }
  }

  /** A step keeps what it must. */
  ghost predicate Good(env: Env, db: Db, to: Effect) {
    && DbInv(env, to.db) && Grows(db, to.db)
    && TaskInv(env, to.db, to.task)
    && TasksInv(env, to.db, to.spawned)
  }

  // ---- Writes keep the database ------------------------------------------------------------

  lemma {:induction false} MemoryWrite(env: Env, db: Db, after: map<Id, Memory>)
    requires DbInv(env, db)
    requires forall id :: id in db.memories ==> id in after && SameOrigin(db.memories[id], after[id])
    requires forall id :: id in after ==> after[id].id == id
    ensures DbInv(env, db.(memories := after)) && Grows(db, db.(memories := after))
  {
    forall k | k in db.links ensures JoinsOneAgent(after, k) && WeightOk(env, after, db.links[k]) {
      LinkStays(env, db, after, k);
    }
    forall c | c in db.chunks ensures Faithful(env, after, db.chunks[c]) {
      assert Faithful(env, db.memories, db.chunks[c]);
    }
  }

  lemma {:induction false} LinkStays(env: Env, db: Db, after: map<Id, Memory>, k: LinkKey)
    requires DbInv(env, db) && k in db.links
    requires forall id :: id in db.memories ==> id in after && SameOrigin(db.memories[id], after[id])
    ensures JoinsOneAgent(after, k) && WeightOk(env, after, db.links[k])
  {
    assert JoinsOneAgent(db.memories, k) && WeightOk(env, db.memories, db.links[k]);
  }

  lemma {:induction false} OneMemoryWrite(env: Env, db: Db, id: Id, m: Memory)
    requires DbInv(env, db) && id in db.memories && SameOrigin(db.memories[id], m)
    ensures
      var db2 := db.(memories := db.memories[id := m]);
      DbInv(env, db2) && Grows(db, db2)
  {
    MemoryWrite(env, db, db.memories[id := m]);
  }

  lemma {:induction false} TouchKeeps(env: Env, db: Db, id: Id, now: int)
    requires DbInv(env, db)
    ensures DbInv(env, Touched(db, id, now)) && Grows(db, Touched(db, id, now))
  {
    if id in db.memories {
      var m := db.memories[id];
      var touched := m.(accessCount := m.accessCount + 1, lastAccessed := Some(now));
      assert Touched(db, id, now) == db.(memories := db.memories[id := touched]);
      OneMemoryWrite(env, db, id, touched);
    }
  }

  lemma {:induction false} InvalidateKeeps(env: Env, db: Db, id: Id, successor: Option<Id>, now: int)
    requires DbInv(env, db)
    ensures DbInv(env, Invalidated(db, id, successor, now)) && Grows(db, Invalidated(db, id, successor, now))
  {
    if id in db.memories {
      OneMemoryWrite(env, db, id, db.memories[id].(isValid := false, stage := Tombstone,
                     invalidatedBy := successor, invalidatedAt := Some(now)));
    }
  }

  lemma {:induction false} BatchKeepsOrigin(memories: map<Id, Memory>, updates: seq<(Id, Stage)>)
    ensures
      var after := BatchRestaged(memories, updates);
      && after.Keys == memories.Keys
      && forall id :: id in memories ==> SameOrigin(memories[id], after[id])
    decreases |updates|
  {
    if updates != [] {
      BatchKeepsOrigin(memories, updates[..|updates| - 1]);
    }
  }

  lemma {:induction false} BatchKeeps(env: Env, db: Db, updates: seq<(Id, Stage)>)
    requires DbInv(env, db)
    ensures
      var db2 := db.(memories := BatchRestaged(db.memories, updates));
      DbInv(env, db2) && Grows(db, db2)
  {
    BatchKeepsOrigin(db.memories, updates);
    MemoryWrite(env, db, BatchRestaged(db.memories, updates));
  }

  lemma {:induction false} InsertKeeps(env: Env, db: Db, m: Memory)
    requires DbInv(env, db) && m.id !in db.memories
    ensures DbInv(env, Upserted(db, m)) && Grows(db, Upserted(db, m)) && RowKept(Upserted(db, m).memories, m)
  {
    MemoryWrite(env, db, db.memories[m.id := m]);
  }

  lemma {:induction false} IndexKeeps(env: Env, db: Db, id: Id, agent: Id, content: string)
    requires DbInv(env, db) && Owned(db.memories, agent, id)
    ensures DbInv(env, Indexed(db, id, agent, content)) && Grows(db, Indexed(db, id, agent, content))
  {
  }

  /** `after` is `chunks` and the rows. */
  ghost predicate Added(chunks: map<Id, Chunk>, rows: seq<Chunk>, after: map<Id, Chunk>) {
    && (forall k :: k in chunks ==> k in after && after[k] == chunks[k])
    && (forall i :: 0 <= i < |rows| ==> rows[i].id in after && after[rows[i].id] == rows[i])
    && (forall k :: k in after ==> k in chunks || exists i :: 0 <= i < |rows| && rows[i].id == k)
  }

  lemma {:induction false} AddedOneMore(chunks: map<Id, Chunk>, rows: seq<Chunk>, row: Chunk, after: map<Id, Chunk>)
    requires Added(chunks, rows, after) && row.id !in after
    ensures Added(chunks, rows + [row], after[row.id := row])
  {
    var all, now := rows + [row], after[row.id := row];
    forall k | k in now && k !in chunks ensures exists i :: 0 <= i < |all| && all[i].id == k {
      if k in after {
        var i :| 0 <= i < |rows| && rows[i].id == k;
        assert all[i].id == k;
      } else {
        assert all[|rows|].id == k;
      }
    }
  }

  lemma {:induction false} LastChunkIsNew(front: seq<Chunk>, row: Chunk, rows: seq<Chunk>)
    requires rows == front + [row] && Distinct(Map(ChunkId, rows))
    ensures Distinct(Map(ChunkId, front)) && forall i :: 0 <= i < |front| ==> front[i].id != row.id
  {
    assert Map(ChunkId, front) == Map(ChunkId, rows)[..|front|];
    forall i | 0 <= i < |front| ensures front[i].id != row.id {
      assert Map(ChunkId, rows)[i] != Map(ChunkId, rows)[|front|];
    }
  }

  lemma {:induction false} ChunkRows(chunks: map<Id, Chunk>, rows: seq<Chunk>)
    requires Distinct(Map(ChunkId, rows))
    requires forall i :: 0 <= i < |rows| ==> rows[i].id !in chunks
    ensures Added(chunks, rows, WithChunks(chunks, rows))
    decreases |rows|
  {
    if rows != [] {
      var n := |rows| - 1;
      var front, row := rows[..n], rows[n];
      assert rows == front + [row];
      LastChunkIsNew(front, row, rows);
      ChunkRows(chunks, front);
      AddedOneMore(chunks, front, row, WithChunks(chunks, front));
    }
  }

  lemma {:induction false} ChunksKeep(env: Env, db: Db, m: Memory, rows: seq<Chunk>)
    requires DbInv(env, db) && RowKept(db.memories, m)
    requires NewChunks(rows, m, env.text.embed(m.content), db.chunks)
    ensures
      var db2 := db.(chunks := WithChunks(db.chunks, rows));
      DbInv(env, db2) && Grows(db, db2)
  {
    var after := WithChunks(db.chunks, rows);
    ChunkRows(db.chunks, rows);
    forall c | c in after
      ensures after[c].id == c && Faithful(env, db.memories, after[c]) && HasLeading(after, after[c].memory)
    {
      ChunkIsOk(env, db, m, rows, after, c);
    }
    ChunksWrite(env, db, after);
  }

  lemma {:induction false} ChunksWrite(env: Env, db: Db, chunks: map<Id, Chunk>)
    requires DbInv(env, db)
    requires forall c :: c in chunks ==>
      chunks[c].id == c && Faithful(env, db.memories, chunks[c]) && HasLeading(chunks, chunks[c].memory)
    ensures DbInv(env, db.(chunks := chunks)) && Grows(db, db.(chunks := chunks))
  {
  }

  lemma {:induction false} ChunkIsOk(env: Env, db: Db, m: Memory, rows: seq<Chunk>, after: map<Id, Chunk>, c: Id)
    requires DbInv(env, db) && RowKept(db.memories, m)
    requires NewChunks(rows, m, env.text.embed(m.content), db.chunks)
    requires Added(db.chunks, rows, after) && c in after
    ensures after[c].id == c && Faithful(env, db.memories, after[c]) && HasLeading(after, after[c].memory)
  {
    if c in db.chunks {
      assert Faithful(env, db.memories, db.chunks[c]) && HasLeading(db.chunks, db.chunks[c].memory);
      var l :| l in db.chunks && db.chunks[l].memory == db.chunks[c].memory && db.chunks[l].index == 0;
      assert l in after && after[l] == db.chunks[l];
    } else {
      var i :| 0 <= i < |rows| && rows[i].id == c;
      assert after[rows[0].id] == rows[0];
    }
  }

  lemma {:induction false} LinkKeeps(env: Env, db: Db, agent: Id, a: Labelled, b: Labelled, weight: real)
    requires DbInv(env, db) && a.0 != b.0
    requires LabelOk(env, db.memories, agent, a) && LabelOk(env, db.memories, agent, b)
    requires weight == Cosine(env.sqrt, a.1, b.1)
    ensures
      var db2 := db.(links := Linked(db.links, Arrow(a.0, b.0, weight)));
      DbInv(env, db2) && Grows(db, db2) && LinkKey(a.0, b.0, SemanticSimilar) in db2.links
  {
    var db2 := db.(links := Linked(db.links, Arrow(a.0, b.0, weight)));
    forall k | k in db2.links ensures JoinsOneAgent(db.memories, k) && WeightOk(env, db.memories, db2.links[k]) {
      LinkStaysOk(env, db, agent, a, b, weight, k);
    }
    LinksWrite(env, db, db2.links);
  }

  lemma {:induction false} LinksWrite(env: Env, db: Db, links: map<LinkKey, Link>)
    requires DbInv(env, db)
    requires forall k :: k in db.links ==> k in links
    requires forall k :: k in links ==> JoinsOneAgent(db.memories, k) && WeightOk(env, db.memories, links[k])
    requires forall k :: k in links ==> links[k].key == k
    ensures DbInv(env, db.(links := links)) && Grows(db, db.(links := links))
  {
  }

  lemma {:induction false} LinkStaysOk(env: Env, db: Db, agent: Id, a: Labelled, b: Labelled, weight: real, k: LinkKey)
    requires DbInv(env, db) && a.0 != b.0
    requires LabelOk(env, db.memories, agent, a) && LabelOk(env, db.memories, agent, b)
    requires weight == Cosine(env.sqrt, a.1, b.1)
    requires k in Linked(db.links, Arrow(a.0, b.0, weight))
    ensures JoinsOneAgent(db.memories, k)
    ensures WeightOk(env, db.memories, Linked(db.links, Arrow(a.0, b.0, weight))[k])
  {
    if k in db.links {
      assert JoinsOneAgent(db.memories, k) && WeightOk(env, db.memories, db.links[k]);
    }
  }

  // ---- Steps keep the invariant ------------------------------------------------------------

  lemma {:induction false} RetainInsertKeeps(env: Env, now: int, db: Db, turn: Turn, to: Effect)
    requires DbInv(env, db) && RetainStep(env, now, db, RetainInsert(turn), to)
    ensures Good(env, db, to)
  {
    var id :| id !in db.memories
      && to == Effect(Upserted(db, NewMemory(env.text, turn, id, now)), RetainChunks(NewMemory(env.text, turn, id, now)), []);
    InsertKeeps(env, db, NewMemory(env.text, turn, id, now));
  }

  lemma {:induction false} RetainChunksKeeps(env: Env, now: int, db: Db, m: Memory, to: Effect)
    requires DbInv(env, db) && TaskInv(env, db, RetainChunks(m)) && RetainStep(env, now, db, RetainChunks(m), to)
    ensures Good(env, db, to)
  {
    var rows :| NewChunks(rows, m, env.text.embed(m.content), db.chunks)
      && to == Effect(db.(chunks := WithChunks(db.chunks, rows)), RetainIndex(m), []);
    ChunksKeep(env, db, m, rows);
  }

  lemma {:induction false} RetainKeeps(env: Env, now: int, db: Db, t: Task, to: Effect)
    requires DbInv(env, db) && TaskInv(env, db, t) && RetainStep(env, now, db, t, to)
    ensures Good(env, db, to)
  {
    if t.RetainInsert? || t.RetainChunks? || t.RetainIndex? {
      NewMemoryKeeps(env, now, db, t, to);
    } else if t.DedupInvalidate? || t.Access? || t.InvalidateNow? {
      OneRowKeeps(env, now, db, t, to);
    } else {
      RetainReadKeeps(env, now, db, t, to);
    }
  }

  /** Steps that store a new memory. */
  lemma {:induction false} NewMemoryKeeps(env: Env, now: int, db: Db, t: Task, to: Effect)
    requires DbInv(env, db) && TaskInv(env, db, t) && RetainStep(env, now, db, t, to)
    requires t.RetainInsert? || t.RetainChunks? || t.RetainIndex?
    ensures Good(env, db, to)
  {
    match t
    case RetainInsert(turn) => RetainInsertKeeps(env, now, db, turn, to);
    case RetainChunks(m) => RetainChunksKeeps(env, now, db, m, to);
    case RetainIndex(m) => RetainIndexKeeps(env, now, db, m, to);
  }

  lemma {:induction false} RetainIndexKeeps(env: Env, now: int, db: Db, m: Memory, to: Effect)
    requires DbInv(env, db) && TaskInv(env, db, RetainIndex(m)) && RetainStep(env, now, db, RetainIndex(m), to)
    ensures Good(env, db, to)
  {
    IndexKeeps(env, db, m.id, m.agent, m.content);
  }

  /** Steps that write to one memory. */
  lemma {:induction false} OneRowKeeps(env: Env, now: int, db: Db, t: Task, to: Effect)
    requires DbInv(env, db) && TaskInv(env, db, t) && RetainStep(env, now, db, t, to)
    requires t.DedupInvalidate? || t.Access? || t.InvalidateNow?
    ensures Good(env, db, to)
  {
    match t
    case DedupInvalidate(id, successor) => InvalidateKeeps(env, db, id, Some(successor), now);
    case Access(id) => TouchKeeps(env, db, id, now);
    case InvalidateNow(id, reason) => InvalidateKeeps(env, db, id, reason, now);
  }

  /** Steps that only read. */
  lemma {:induction false} RetainReadKeeps(env: Env, now: int, db: Db, t: Task, to: Effect)
    requires DbInv(env, db) && TaskInv(env, db, t) && RetainStep(env, now, db, t, to)
    requires t.RetainFind? || t.DedupFirst? || t.DedupScan?
    ensures Good(env, db, to)
  {
  }

  lemma {:induction false} LifecycleKeeps(env: Env, db: Db, t: Task, to: Effect)
    requires DbInv(env, db) && TaskInv(env, db, t) && LifecycleStep(env, db, t, to)
    ensures Good(env, db, to)
  {
    match t
    case SweepWriteWorking(_, _, updates) => BatchKeeps(env, db, updates);
    case SweepWriteUp(_, _, updates, _) => BatchKeeps(env, db, updates);
    case SweepWriteDown(_, _, updates) => BatchKeeps(env, db, updates);
    case WriteStages(updates) => BatchKeeps(env, db, updates);
    case _ =>
  }

  lemma {:induction false} LiveRows(memories: map<Id, Memory>, agent: Id, rows: seq<Memory>)
    requires Listing(rows, memories, IsLive(agent), MemoryId)
    ensures RowsOk(memories, agent, rows)
  {
    forall i | 0 <= i < |rows| ensures Owned(memories, agent, rows[i].id) {
      assert IsLive(agent)(rows[i]);
    }
  }

  /** The first chunk read is the memory's first embedding. */
  lemma {:induction false} FirstIsFirst(env: Env, db: Db, agent: Id, id: Id, e: Option<Embedding>)
    requires DbInv(env, db) && Owned(db.memories, agent, id) && FirstEmbedding(db.chunks, id, e) && e.Some?
    ensures LabelOk(env, db.memories, agent, (id, e.value))
  {
    var c :| IsFirst(db.chunks, id, c) && db.chunks[c].embedding == e.value;
    assert Faithful(env, db.memories, db.chunks[c]) && HasLeading(db.chunks, id);
    var l :| l in db.chunks && db.chunks[l].memory == id && db.chunks[l].index == 0;
  }

  lemma {:induction false} LoadKeeps(env: Env, db: Db, t: Task, to: Effect)
    requires t.DetectLoad? && t.todo != []
    requires DbInv(env, db) && TaskInv(env, db, t) && DetectStep(env, db, t, to)
    ensures Good(env, db, to)
  {
    var agent, todo, embs := t.agent, t.todo, t.embs;
    var e :| FirstEmbedding(db.chunks, todo[0].id, e)
      && to == Effect(db, DetectLoad(agent, todo[1..], if e.Some? then embs + [(todo[0].id, e.value)] else embs), []);
    StillDistinct(todo, embs, e);
    if e.Some? {
      FirstIsFirst(env, db, agent, todo[0].id, e);
    }
  }

  lemma {:induction false} StillDistinct(todo: seq<Memory>, embs: seq<Labelled>, e: Option<Embedding>)
    requires todo != [] && Distinct(Map(Label, embs) + Map(MemoryId, todo))
    ensures Distinct(Map(Label, if e.Some? then embs + [(todo[0].id, e.value)] else embs) + Map(MemoryId, todo[1..]))
  {
    var front, x, rest := Map(Label, embs), todo[0].id, Map(MemoryId, todo[1..]);
    assert Map(MemoryId, todo) == [x] + rest;
    if e.Some? {
      assert Map(Label, embs + [(x, e.value)]) == front + [x];
      Shift(front, x, rest);
    } else {
      DropOne(front, x, rest);
    }
  }

  lemma {:induction false} Shift<T>(a: seq<T>, x: T, b: seq<T>)
    ensures (a + [x]) + b == a + ([x] + b)
  {
  }

  lemma {:induction false} DropOne<T>(a: seq<T>, x: T, b: seq<T>)
    requires Distinct(a + ([x] + b))
    ensures Distinct(a + b)
  {
    var whole := a + ([x] + b);
    forall i, j | 0 <= i < j < |a + b| ensures (a + b)[i] != (a + b)[j] {
      assert (a + b)[i] == whole[if i < |a| then i else i + 1];
      assert (a + b)[j] == whole[if j < |a| then j else j + 1];
    }
  }

  lemma {:induction false} PairKeeps(env: Env, db: Db, agent: Id, embs: seq<Labelled>, i: nat, j: nat)
    requires DbInv(env, db) && LabelsOk(env, db.memories, agent, embs) && Distinct(Map(Label, embs))
    requires i < |embs| && j < |embs| && i != j
    ensures
      var db2 := db.(links := Linked(db.links, Arrow(embs[i].0, embs[j].0, Cosine(env.sqrt, embs[i].1, embs[j].1))));
      DbInv(env, db2) && Grows(db, db2) && Forward(embs, i, j) in db2.links
  {
    assert Map(Label, embs)[i] != Map(Label, embs)[j];
    LinkKeeps(env, db, agent, embs[i], embs[j], Cosine(env.sqrt, embs[i].1, embs[j].1));
  }

  lemma {:induction false} LoadingStarts(env: Env, db: Db, agent: Id, rows: seq<Memory>)
    requires Listing(rows, db.memories, IsLive(agent), MemoryId)
    ensures TaskInv(env, db, DetectLoad(agent, Truncated(rows, MAX_DEDUP_MEMORIES), []))
  {
    var taken := Truncated(rows, MAX_DEDUP_MEMORIES);
    LiveRows(db.memories, agent, rows);
    assert Map(Label, []) + Map(MemoryId, taken) == Map(MemoryId, rows)[..|taken|];
  }

  lemma {:induction false} ListKeeps(env: Env, db: Db, t: Task, to: Effect)
    requires t.DetectList?
    requires DbInv(env, db) && DetectStep(env, db, t, to)
    ensures Good(env, db, to)
  {
    var rows :| Listing(rows, db.memories, IsLive(t.agent), MemoryId)
      && to == Effect(db, if |rows| < 2 then Finished
                          else DetectLoad(t.agent, Truncated(rows, MAX_DEDUP_MEMORIES), []), []);
    LoadingStarts(env, db, t.agent, rows);
  }

  lemma {:induction false} RebuildListKeeps(env: Env, db: Db, t: Task, to: Effect)
    requires t.RebuildList?
    requires DbInv(env, db) && DetectStep(env, db, t, to)
    ensures Good(env, db, to)
  {
    var rows :| Listing(rows, db.memories, IsLive(t.agent), MemoryId) && to == Effect(db, RebuildWrite(t.agent, rows), []);
    LiveRows(db.memories, t.agent, rows);
  }

  lemma {:induction false} LinkingKeeps(env: Env, db: Db, t: Task, to: Effect)
    requires t.DetectLink? || t.DetectReverse?
    requires DbInv(env, db) && TaskInv(env, db, t) && DetectStep(env, db, t, to)
    ensures Good(env, db, to)
  {
    var embs, i, j := t.embs, t.i, t.j;
    if i < |embs| && j < |embs| {
      if t.DetectLink? {
        PairKeeps(env, db, t.agent, embs, i, j);
      } else {
        CosineCommutes(env.sqrt, embs[i].1, embs[j].1);
        PairKeeps(env, db, t.agent, embs, j, i);
      }
    }
  }

  lemma {:induction false} DetectKeeps(env: Env, db: Db, t: Task, to: Effect)
    requires DbInv(env, db) && TaskInv(env, db, t) && DetectStep(env, db, t, to)
    ensures Good(env, db, to)
  {
    if t.DetectList? {
      ListKeeps(env, db, t, to);
    } else if t.RebuildList? {
      RebuildListKeeps(env, db, t, to);
    } else if t.DetectLink? || t.DetectReverse? {
      LinkingKeeps(env, db, t, to);
    } else if t.todo == [] {
      if t.DetectLoad? {
        assert Map(Label, t.embs) + Map(MemoryId, t.todo) == Map(Label, t.embs);
      }
    } else if t.DetectLoad? {
      LoadKeeps(env, db, t, to);
    } else {
      IndexKeeps(env, db, t.todo[0].id, t.agent, t.todo[0].content);
    }
  }

  lemma {:induction false} EmptyArm(memories: map<Id, Memory>, agent: Id)
    ensures ArmOwned(memories, agent, Ranked([])) && ArmOwned(memories, agent, [])
  {
    assert RankedIds([]) == [];
  }

  /** What an arm is about to put into its task. */
  lemma {:induction false} ArmsAreOwned(env: Env, db: Db, agent: Id, limit: nat)
    requires DbInv(env, db)
    ensures ArmOwned(db.memories, agent, [])
    ensures forall ids :: HitsOrNone(ids, db.fts, agent, limit) ==> ArmOwned(db.memories, agent, Ranked(ids))
    ensures forall rows :: RecentOrNone(rows, db.memories, agent, limit) ==>
      ArmOwned(db.memories, agent, Ranked(Map(MemoryId, rows)))
  {
    EmptyArm(db.memories, agent);
    forall ids | HitsOrNone(ids, db.fts, agent, limit) ensures ArmOwned(db.memories, agent, Ranked(ids)) {
      if ids != [] {
        KeywordArmIsOwned(db, agent, ids, limit);
      }
    }
    forall rows | RecentOrNone(rows, db.memories, agent, limit)
      ensures ArmOwned(db.memories, agent, Ranked(Map(MemoryId, rows)))
    {
      if rows == [] {
        assert Map(MemoryId, rows) == [];
      } else {
        var at :| RecentAt(rows, db.memories, agent, at, limit);
        TemporalArmIsOwned(db.memories, agent, rows, at - WINDOW, at, limit);
      }
    }
  }

  lemma {:induction false} SeedsAreOwned(env: Env, db: Db, agent: Id, found: Expansion, seeds: seq<Id>)
    requires DbInv(env, db) && seeds != []
    requires AllSeenOwned(db.memories, agent, found) && Tidy(found) && AllOwned(db.memories, agent, seeds)
    ensures forall rows :: Listing(rows, db.links, FromSource(seeds[0]), KeyOfLink) ==>
      AllSeenOwned(db.memories, agent, AddSeed(found, seeds[0], rows)) && Tidy(AddSeed(found, seeds[0], rows))
  {
    forall rows | Listing(rows, db.links, FromSource(seeds[0]), KeyOfLink)
      ensures AllSeenOwned(db.memories, agent, AddSeed(found, seeds[0], rows)) && Tidy(AddSeed(found, seeds[0], rows))
    {
      AddSeedIsOwned(db, agent, found, seeds[0], rows);
    }
  }

  lemma {:induction false} ArmKeeps(env: Env, db: Db, t: Task, to: Effect)
    requires t.Searching? && DbInv(env, db) && TaskInv(env, db, t) && ArmStep(env, db, t, to)
    ensures to.db == db && to.spawned == [] && TaskInv(env, db, to.task)
  {
    var agent, limit := t.call.agent, env.cfg.candidatesPerArm;
    ArmsAreOwned(env, db, agent, limit);
    if t.seeds != [] {
      SeedsAreOwned(env, db, agent, t.found, t.seeds);
    }
    GraphArmIsOwned(db.memories, agent, t.found, limit);
  }

  lemma {:induction false} FetchKeeps(env: Env, now: int, db: Db, t: Task, to: Effect)
    requires NoZero(env.cfg.rrfK) && t.Fetching?
    requires TaskInv(env, db, t) && RecallStep(env, now, db, t, to)
    ensures to.task.Recording? && Kept(to.task.call, to.task.results)
  {
    var s := Scorer(env.cfg, env.exp, now);
    FinalKeepsPromise(s, db.memories, t.fused, t.call.limit);
    FinalIsLive(s, db.memories, t.fused, t.call.limit, t.call.agent);
  }

  lemma {:induction false} FuseKeeps(env: Env, now: int, db: Db, t: Task, to: Effect)
    requires NoZero(env.cfg.rrfK) && t.Searching? && t.keyword.Some? && t.temporal.Some? && t.graph.Some?
    requires TaskInv(env, db, t) && RecallStep(env, now, db, t, to)
    ensures to.db == db && to.spawned == [] && TaskInv(env, db, to.task)
  {
    var agent := t.call.agent;
    var semantic := SemanticArm(env.sqrt, t.call.query.embedding, t.chunks, env.cfg.candidatesPerArm);
    var lists := Bare(ListsOf(env.cfg, semantic, t.keyword.value, t.graph.value, t.temporal.value));
    var fused :| AllDivisible(lists, env.cfg.rrfK) && IsFusion(Erased(fused), lists, env.cfg.rrfK)
      && to == Effect(db, Fetching(t.call, fused), []);
    SemanticArmIsOwned(db.memories, agent, env.sqrt, t.call.query.embedding, t.chunks, env.cfg.candidatesPerArm);
    FusedIsOwned(db.memories, agent, env.cfg, semantic, t.keyword.value, t.graph.value, t.temporal.value, fused);
  }

  lemma {:induction false} StartKeeps(env: Env, now: int, db: Db, t: Task, to: Effect)
    requires NoZero(env.cfg.rrfK) && t.RecallStart? && RecallStep(env, now, db, t, to)
    ensures to.db == db && to.spawned == [] && TaskInv(env, db, to.task)
  {
    var agent, query := t.call.agent, t.call.query.embedding;
    var chunks: seq<Chunk> :| Listing(chunks, db.chunks, OfLive(db.memories, agent), ChunkId)
      && to == Effect(db, Searching(t.call, chunks, None, None, None, NOTHING,
           if Blank(query) then [] else Nearest(env.sqrt, query, chunks, SEEDS)), []);
    forall i | 0 <= i < |chunks| ensures Owned(db.memories, agent, chunks[i].memory) {
      assert OfLive(db.memories, agent)(chunks[i]);
    }
    NearestIsOwned(db.memories, agent, env.sqrt, query, chunks, SEEDS);
    assert Map(FoundId, NOTHING.linked) == [];
  }

  /** A step that only reads. */
  lemma {:induction false} ReadKeeps(env: Env, db: Db, to: Effect)
    requires DbInv(env, db) && to.db == db && to.spawned == [] && TaskInv(env, db, to.task)
    ensures Good(env, db, to)
  {
  }

  lemma {:induction false} RecordingKeeps(env: Env, now: int, db: Db, t: Task, to: Effect)
    requires NoZero(env.cfg.rrfK) && t.Recording?
    requires DbInv(env, db) && TaskInv(env, db, t) && RecallStep(env, now, db, t, to)
    ensures Good(env, db, to)
  {
    if t.left != [] {
      TouchKeeps(env, db, t.left[0], now);
    }
  }

  lemma {:induction false} RecallKeeps(env: Env, now: int, db: Db, t: Task, to: Effect)
    requires NoZero(env.cfg.rrfK)
    requires DbInv(env, db) && TaskInv(env, db, t) && RecallStep(env, now, db, t, to)
    ensures Good(env, db, to)
  {
    if t.Recording? {
      RecordingKeeps(env, now, db, t, to);
    } else {
      SearchKeeps(env, now, db, t, to);
      ReadKeeps(env, db, to);
    }
  }

  lemma {:induction false} SearchKeeps(env: Env, now: int, db: Db, t: Task, to: Effect)
    requires NoZero(env.cfg.rrfK) && !t.Recording?
    requires DbInv(env, db) && TaskInv(env, db, t) && RecallStep(env, now, db, t, to)
    ensures to.db == db && to.spawned == [] && TaskInv(env, db, to.task)
  {
    match t
    case RecallStart(_) => StartKeeps(env, now, db, t, to);
    case Searching(_, _, keyword, temporal, graph, _, _) =>
      if keyword.Some? && temporal.Some? && graph.Some? {
        FuseKeeps(env, now, db, t, to);
      } else {
        ArmKeeps(env, db, t, to);
      }
    case Fetching(_, _) => FetchKeeps(env, now, db, t, to);
  }

  lemma {:induction false} StepKeeps(env: Env, now: int, db: Db, t: Task, to: Effect)
    requires NoZero(env.cfg.rrfK)
    requires DbInv(env, db) && TaskInv(env, db, t) && TaskStep(env, now, db, t, to)
    ensures Good(env, db, to)
  {
    if RetainStep(env, now, db, t, to) {
      RetainKeeps(env, now, db, t, to);
    } else if LifecycleStep(env, db, t, to) {
      LifecycleKeeps(env, db, t, to);
    } else if DetectStep(env, db, t, to) {
      DetectKeeps(env, db, t, to);
    } else if RecallStep(env, now, db, t, to) {
      RecallKeeps(env, now, db, t, to);
    } else {
      ReadKeeps(env, db, to);
    }
  }

  lemma {:induction false} MoveKeepsInv(env: Env, s: State, s2: State, i: nat, now: int, to: Effect)
    requires NoZero(env.cfg.rrfK) && Inv(env, s) && Moves(env, s, s2, i, now, to)
    ensures Inv(env, s2) && Grows(s.db, s2.db)
  {
    StepKeeps(env, now, s.db, s.tasks[i], to);
    forall j | 0 <= j < |s.tasks| ensures TaskInv(env, to.db, s.tasks[j]) {
      TaskInvIsStable(env, s.db, to.db, s.tasks[j]);
    }
  }

  lemma {:induction false} NextKeepsInv(env: Env, s: State, s2: State)
    requires NoZero(env.cfg.rrfK) && Inv(env, s) && Next(env, s, s2)
    ensures Inv(env, s2) && Grows(s.db, s2.db)
  {
    if i: nat, now: int, to: Effect :| Moves(env, s, s2, i, now, to) {
      MoveKeepsInv(env, s, s2, i, now, to);
    }
  }

  // ---- Over whole runs ---------------------------------------------------------------------

  ghost function Steps(env: Env): (State, State) -> bool
    requires NoZero(env.cfg.rrfK)
  {
    (s: State, s2: State) => Next(env, s, s2)
  }

  lemma {:induction false} RunSteps(env: Env, run: seq<State>)
    requires NoZero(env.cfg.rrfK) && Run(env, run)
    ensures forall k :: 0 <= k < |run| - 1 ==> Steps(env)(run[k], run[k + 1])
  {
  }

  lemma {:induction false} InvIsPreserved(env: Env)
    requires NoZero(env.cfg.rrfK)
    ensures Preserves(Steps(env), (s: State) => Inv(env, s))
  {
    forall s, s2 | Inv(env, s) && Steps(env)(s, s2) ensures Inv(env, s2) {
      NextKeepsInv(env, s, s2);
    }
  }

  /** The invariant holds in every state of every run. */
  lemma {:induction false} RunKeepsInv(env: Env, run: seq<State>, k: nat)
    requires NoZero(env.cfg.rrfK) && Run(env, run) && k < |run|
    ensures Inv(env, run[k])
  {
    var inv := (s: State) => Inv(env, s);
    assert inv(run[0]);
    RunSteps(env, run);
    InvIsPreserved(env);
    Invariant(run, Steps(env), inv, 0, k);
    assert inv(run[k]);
  }

  // ---- Tombstones --------------------------------------------------------------------------

  /** The stage updates a task has computed and is about to write. */
  function Pending(t: Task): seq<(Id, Stage)> {
    match t
    case SweepWriteWorking(_, _, updates) => updates
    case SweepWriteUp(_, _, updates, _) => updates
    case SweepWriteDown(_, _, updates) => updates
    case WriteStages(updates) => updates
    case _ => []
  }

  /** The step writes its task's batch, whose last entry for `id` is another stage than Tombstone. */
  ghost predicate OverwritesTombstone(t: Task, to: Effect, id: Id) {
    to.task != Stopped(t) && Revives(Pending(t), id)
  }

  ghost predicate IsTombstone(db: Db, id: Id) {
    id in db.memories && db.memories[id].stage == Tombstone
  }

  lemma {:induction false} OneRowKeepsTombstone(db: Db, id: Id, other: Id, successor: Option<Id>, now: int)
    requires IsTombstone(db, id)
    ensures IsTombstone(Invalidated(db, other, successor, now), id) && IsTombstone(Touched(db, other, now), id)
  {
  }

  lemma {:induction false} RetainKeepsTombstone(env: Env, now: int, db: Db, t: Task, to: Effect, id: Id)
    requires RetainStep(env, now, db, t, to) && IsTombstone(db, id)
    ensures IsTombstone(to.db, id) && Pending(t) == []
  {
    match t
    case DedupInvalidate(other, successor) => OneRowKeepsTombstone(db, id, other, Some(successor), now);
    case Access(other) => OneRowKeepsTombstone(db, id, other, None, now);
    case InvalidateNow(other, reason) => OneRowKeepsTombstone(db, id, other, reason, now);
    case RetainInsert(turn) =>
      var m :| m !in db.memories
        && to == Effect(Upserted(db, NewMemory(env.text, turn, m, now)), RetainChunks(NewMemory(env.text, turn, m, now)), []);
      assert to.db.memories == db.memories[m := NewMemory(env.text, turn, m, now)];
    case _ =>
  }

  lemma {:induction false} OthersKeepTombstone(env: Env, now: int, db: Db, t: Task, to: Effect, id: Id)
    requires NoZero(env.cfg.rrfK) && IsTombstone(db, id)
    requires DetectStep(env, db, t, to) || RecallStep(env, now, db, t, to)
    ensures IsTombstone(to.db, id) && Pending(t) == []
  {
  }

  lemma {:induction false} LifecycleAndTombstone(env: Env, db: Db, t: Task, to: Effect, id: Id)
    requires LifecycleStep(env, db, t, to) && IsTombstone(db, id)
    ensures !IsTombstone(to.db, id) <==> Revives(Pending(t), id)
    ensures to.task != Stopped(t)
  {
    TombstoneLostExactlyWhen(db.memories, Pending(t), id);
  }

  /** A step takes a memory's Tombstone stage away exactly when it writes a batch whose last entry for
      the memory is another stage. */
  lemma {:induction false} StepLosesTombstoneExactlyWhen(env: Env, now: int, db: Db, t: Task, to: Effect, id: Id)
    requires NoZero(env.cfg.rrfK) && TaskStep(env, now, db, t, to) && IsTombstone(db, id)
    ensures !IsTombstone(to.db, id) <==> OverwritesTombstone(t, to, id)
  {
    if RetainStep(env, now, db, t, to) {
      RetainKeepsTombstone(env, now, db, t, to, id);
    } else if LifecycleStep(env, db, t, to) {
      LifecycleAndTombstone(env, db, t, to, id);
    } else if DetectStep(env, db, t, to) || RecallStep(env, now, db, t, to) {
      OthersKeepTombstone(env, now, db, t, to, id);
    }
  }

  /** Some task's step from `s` to `s2` does so. */
  ghost predicate Overwritten(env: Env, s: State, s2: State, id: Id)
    requires NoZero(env.cfg.rrfK)
  {
    exists i: nat, now: int, to: Effect :: MovesOverTombstone(env, s, s2, i, now, to, id)
  }

  ghost predicate MovesOverTombstone(env: Env, s: State, s2: State, i: nat, now: int, to: Effect, id: Id)
    requires NoZero(env.cfg.rrfK)
  {
    Moves(env, s, s2, i, now, to) && OverwritesTombstone(s.tasks[i], to, id)
  }

  /** From one state of a run to the next, a Tombstone stage is lost exactly when some task writes such
      a batch. */
  lemma {:induction false} TombstoneLostInRunExactlyWhen(env: Env, run: seq<State>, k: nat, id: Id)
    requires NoZero(env.cfg.rrfK) && Run(env, run) && k + 1 < |run| && IsTombstone(run[k].db, id)
    ensures !IsTombstone(run[k + 1].db, id)
      <==> Overwritten(env, run[k], run[k + 1], id)
  {
    var s, s2 := run[k], run[k + 1];
    assert Next(env, s, s2);
    forall i: nat, now: int, to: Effect | Moves(env, s, s2, i, now, to)
      ensures !IsTombstone(s2.db, id) <==> MovesOverTombstone(env, s, s2, i, now, to, id)
    {
      StepLosesTombstoneExactlyWhen(env, now, s.db, s.tasks[i], to, id);
    }
  }

  /** A Tombstone stage lost between any two states of a run was overwritten by some step in between. */
  lemma {:induction false} TombstoneLostBetween(env: Env, run: seq<State>, a: nat, b: nat, id: Id)
    requires NoZero(env.cfg.rrfK) && Run(env, run) && a <= b < |run|
    requires IsTombstone(run[a].db, id) && !IsTombstone(run[b].db, id)
    ensures exists k :: a <= k < b && IsTombstone(run[k].db, id) && Overwritten(env, run[k], run[k + 1], id)
  {
    var k := LosingStep(run, (s: State) => IsTombstone(s.db, id), a, b);
    TombstoneLostInRunExactlyWhen(env, run, k, id);
  }

  // A working memory and the tasks that come into conflict over it.
  const TURN := Turn(0, "", 0, Working)
  const FINALIZE := FinalizeRead(0, 0)
  const PROMOTE := WriteStages([(0, Episodic)])
  const INVALIDATE := InvalidateNow(0, None)

  function Row(env: Env): Memory { NewMemory(env.text, TURN, 0, 0) }

  function Before(env: Env): Db { Upserted(EMPTY.db, Row(env)) }

  function During(env: Env): Db { Invalidated(Before(env), 0, None, 0) }

  function After(env: Env): Db { During(env).(memories := BatchRestaged(During(env).memories, PROMOTE.updates)) }

  /** The end of a session reads the memory before the invalidation and writes its stage after it. */
  function LosingRun(env: Env): seq<State> {
    var idle := RetainChunks(Row(env));
    [ EMPTY,
      State(EMPTY.db, [RetainFind(TURN)]),
      State(EMPTY.db, [RetainInsert(TURN)]),
      State(Before(env), [idle]),
      State(Before(env), [idle, FINALIZE]),
      State(Before(env), [idle, PROMOTE]),
      State(Before(env), [idle, PROMOTE, INVALIDATE]),
      State(During(env), [idle, PROMOTE, Finished]),
      State(After(env), [idle, Finished, Finished])
    ]
  }

  lemma {:induction false} RowIsInserted(env: Env)
    requires NoZero(env.cfg.rrfK)
    ensures Moves(env, LosingRun(env)[1], LosingRun(env)[2], 0, 0, Effect(EMPTY.db, RetainInsert(TURN), []))
    ensures Moves(env, LosingRun(env)[2], LosingRun(env)[3], 0, 0, Effect(Before(env), RetainChunks(Row(env)), []))
  {
    assert [RetainFind(TURN)][0 := RetainInsert(TURN)] == [RetainInsert(TURN)];
    assert [RetainInsert(TURN)][0 := RetainChunks(Row(env))] == [RetainChunks(Row(env))];
  }

  lemma {:induction false} RowIsListed(env: Env)
    ensures Listing([Row(env)], Before(env).memories, InSession(0, 0, Working), MemoryId)
    ensures Chosen([Row(env)], (m: Memory) => true, Episodic) == PROMOTE.updates
  {
    var rows := [Row(env)];
    assert Map(MemoryId, rows) == [0];
    assert rows[..0] == [];
  }

  lemma {:induction false} RowIsChosen(env: Env)
    requires NoZero(env.cfg.rrfK)
    ensures Moves(env, LosingRun(env)[4], LosingRun(env)[5], 1, 0, Effect(Before(env), PROMOTE, []))
  {
    RowIsListed(env);
    assert LifecycleStep(env, Before(env), FINALIZE, Effect(Before(env), PROMOTE, []));
  }

  lemma {:induction false} StagesAreWritten(env: Env)
    requires NoZero(env.cfg.rrfK)
    ensures Moves(env, LosingRun(env)[6], LosingRun(env)[7], 2, 0, Effect(During(env), Finished, []))
    ensures Moves(env, LosingRun(env)[7], LosingRun(env)[8], 1, 0, Effect(After(env), Finished, []))
    ensures IsTombstone(During(env), 0) && 0 in After(env).memories && After(env).memories[0].stage == Episodic
  {
    assert PROMOTE.updates[..0] == [];
  }

  lemma {:induction false} TasksAreSpawned(env: Env)
    requires NoZero(env.cfg.rrfK)
    ensures Next(env, LosingRun(env)[0], LosingRun(env)[1])
    ensures Next(env, LosingRun(env)[3], LosingRun(env)[4])
    ensures Next(env, LosingRun(env)[5], LosingRun(env)[6])
  {
    var run := LosingRun(env);
    assert Initial(RetainFind(TURN)) && run[1] == State(run[0].db, run[0].tasks + [RetainFind(TURN)]);
    assert Initial(FINALIZE) && run[4] == State(run[3].db, run[3].tasks + [FINALIZE]);
    assert Initial(INVALIDATE) && run[6] == State(run[5].db, run[5].tasks + [INVALIDATE]);
  }

  lemma {:induction false} TasksMove(env: Env)
    requires NoZero(env.cfg.rrfK)
    ensures Next(env, LosingRun(env)[1], LosingRun(env)[2])
    ensures Next(env, LosingRun(env)[2], LosingRun(env)[3])
    ensures Next(env, LosingRun(env)[4], LosingRun(env)[5])
    ensures Next(env, LosingRun(env)[6], LosingRun(env)[7])
    ensures Next(env, LosingRun(env)[7], LosingRun(env)[8])
  {
    RowIsInserted(env);
    RowIsChosen(env);
    StagesAreWritten(env);
  }

  /** A run in which an invalidated memory gets a retrievable stage back. */
  lemma {:induction false} TombstoneIsLost(env: Env)
    requires NoZero(env.cfg.rrfK)
    ensures
      var run := LosingRun(env);
      && Run(env, run) && IsTombstone(run[7].db, 0)
      && 0 in run[8].db.memories && run[8].db.memories[0].stage == Episodic
  {
    StagesAreWritten(env);
    TasksAreSpawned(env);
    TasksMove(env);
  }

  // ---- Invalidated memories ----------------------------------------------------------------

  ghost predicate Invalid(db: Db, id: Id) {
    id in db.memories && !db.memories[id].isValid
  }

  /** No task from `t` on will return `id` on the strength of what it has read so far. */
  ghost predicate Omits(t: Task, id: Id) {
    t.Recording? || t.Returned? ==> id !in Map(ResultId, t.results)
  }

  /** Holds no results yet. */
  predicate Silent(t: Task) {
    !t.Recording? && !t.Returned?
  }

  lemma {:induction false} RetainIsSilent(env: Env, now: int, db: Db, t: Task, to: Effect)
    requires RetainStep(env, now, db, t, to)
    ensures Silent(to.task) && to.db.links == db.links && !t.DetectReverse?
    ensures forall j :: 0 <= j < |to.spawned| ==> Silent(to.spawned[j])
  {
  }

  lemma {:induction false} LifecycleIsSilent(env: Env, db: Db, t: Task, to: Effect)
    requires LifecycleStep(env, db, t, to)
    ensures Silent(to.task) && to.db.links == db.links && to.spawned == [] && !t.DetectReverse?
  {
  }

  lemma {:induction false} DetectIsSilent(env: Env, db: Db, t: Task, to: Effect)
    requires DetectStep(env, db, t, to)
    ensures Silent(to.task) && to.spawned == []
  {
  }

  lemma {:induction false} RecallOmits(env: Env, now: int, db: Db, t: Task, to: Effect, id: Id)
    requires NoZero(env.cfg.rrfK) && RecallStep(env, now, db, t, to)
    requires Invalid(db, id) && Omits(t, id)
    ensures Omits(to.task, id)
  {
    if t.Fetching? {
      var s := Scorer(env.cfg, env.exp, now);
      var results := Final(s, db.memories, t.fused, t.call.limit);
      FinalRows(s, db.memories, t.fused, t.call.limit);
      forall i | 0 <= i < |results| ensures results[i].memoryId != id {
        var p := (r: Result) => FromRow(r, s, db.memories, t.fused);
        assert p(results[i]);
      }
    }
  }

  lemma {:induction false} RecallSpawnsNothing(env: Env, now: int, db: Db, t: Task, to: Effect)
    requires NoZero(env.cfg.rrfK) && RecallStep(env, now, db, t, to)
    ensures to.spawned == [] && to.db.links == db.links && !to.task.DetectReverse? && !t.DetectReverse?
  {
  }

  lemma {:induction false} StepOmits(env: Env, now: int, db: Db, t: Task, to: Effect, id: Id)
    requires NoZero(env.cfg.rrfK) && TaskStep(env, now, db, t, to)
    requires Invalid(db, id) && Omits(t, id)
    ensures Omits(to.task, id)
  {
    if RetainStep(env, now, db, t, to) {
      RetainIsSilent(env, now, db, t, to);
    } else if LifecycleStep(env, db, t, to) {
      LifecycleIsSilent(env, db, t, to);
    } else if DetectStep(env, db, t, to) {
      DetectIsSilent(env, db, t, to);
    } else if RecallStep(env, now, db, t, to) {
      RecallOmits(env, now, db, t, to, id);
    }
  }

  lemma {:induction false} SpawnedIsSilent(env: Env, now: int, db: Db, t: Task, to: Effect)
    requires NoZero(env.cfg.rrfK) && TaskStep(env, now, db, t, to)
    ensures forall j :: 0 <= j < |to.spawned| ==> Silent(to.spawned[j])
  {
    if RetainStep(env, now, db, t, to) {
      RetainIsSilent(env, now, db, t, to);
    } else if LifecycleStep(env, db, t, to) {
      LifecycleIsSilent(env, db, t, to);
    } else if DetectStep(env, db, t, to) {
      DetectIsSilent(env, db, t, to);
    } else if RecallStep(env, now, db, t, to) {
      RecallSpawnsNothing(env, now, db, t, to);
    }
  }

  /** `id` is invalid, and the i-th task, started or not, omits it. */
  ghost predicate Omitted(s: State, i: nat, id: Id) {
    Invalid(s.db, id) && (i < |s.tasks| ==> Omits(s.tasks[i], id))
  }

  lemma {:induction false} OmissionIsPreserved(env: Env, i: nat, id: Id)
    requires NoZero(env.cfg.rrfK)
    ensures Preserves(Steps(env), (s: State) => Inv(env, s) && Omitted(s, i, id))
  {
    forall s, s2 | Inv(env, s) && Omitted(s, i, id) && Steps(env)(s, s2) ensures Inv(env, s2) && Omitted(s2, i, id) {
      NextKeepsInv(env, s, s2);
      NextOmits(env, s, s2, i, id);
    }
  }

  lemma {:induction false} OmissionLasts(env: Env, run: seq<State>, start: nat, end: nat, i: nat, id: Id)
    requires NoZero(env.cfg.rrfK) && Run(env, run) && start <= end < |run|
    requires Omitted(run[start], i, id)
    ensures Omitted(run[end], i, id)
  {
    var inv := (s: State) => Inv(env, s) && Omitted(s, i, id);
    RunKeepsInv(env, run, start);
    assert inv(run[start]);
    RunSteps(env, run);
    OmissionIsPreserved(env, i, id);
    Invariant(run, Steps(env), inv, start, end);
    assert inv(run[end]);
  }

  lemma {:induction false} NextOmits(env: Env, s: State, s2: State, i: nat, id: Id)
    requires NoZero(env.cfg.rrfK) && Inv(env, s) && Next(env, s, s2)
    requires Omitted(s, i, id)
    ensures Omitted(s2, i, id)
  {
    NextKeepsInv(env, s, s2);
    assert id in s2.db.memories && SameOrigin(s.db.memories[id], s2.db.memories[id]);
    if j: nat, now: int, e: Effect :| Moves(env, s, s2, j, now, e) {
      MoveOmits(env, s, s2, j, now, e, i, id);
    }
  }

  lemma {:induction false} MoveOmits(env: Env, s: State, s2: State, j: nat, now: int, e: Effect, i: nat, id: Id)
    requires NoZero(env.cfg.rrfK) && Moves(env, s, s2, j, now, e)
    requires Invalid(s.db, id) && (i < |s.tasks| ==> Omits(s.tasks[i], id))
    ensures i < |s2.tasks| ==> Omits(s2.tasks[i], id)
  {
    if i < |s2.tasks| {
      if i == j {
        StepOmits(env, now, s.db, s.tasks[j], e, id);
      } else if i >= |s.tasks| {
        assert s2.tasks[i] == e.spawned[i - |s.tasks|];
        SpawnedIsSilent(env, now, s.db, s.tasks[j], e);
      }
    }
  }

  /** Once invalidated, a memory is returned by no recall that had not yet fetched it: whatever the
      other tasks do, and although its index row, chunks and links all stay. */
  lemma {:induction false} InvalidatedIsNeverReturned(env: Env, run: seq<State>, start: nat, end: nat, i: nat, id: Id)
    requires NoZero(env.cfg.rrfK) && Run(env, run) && start <= end < |run|
    requires Invalid(run[start].db, id)
    requires i < |run[start].tasks| ==> !run[start].tasks[i].Recording? && !run[start].tasks[i].Returned?
    requires i < |run[end].tasks| && run[end].tasks[i].Returned?
    ensures id !in Map(ResultId, run[end].tasks[i].results)
  {
    OmissionLasts(env, run, start, end, i, id);
  }

  // ---- What a recall returns ---------------------------------------------------------------

  /** The results were computed from the rows of this very state, in which the i-th task fetches. */
  ghost predicate ReadAt(env: Env, s: State, i: nat, now: int, fused: seq<Fused>, call: Call, results: seq<Result>)
    requires NoZero(env.cfg.rrfK)
  {
    && i < |s.tasks| && s.tasks[i] == Fetching(call, fused)
    && results == Final(Scorer(env.cfg, env.exp, now), s.db.memories, fused, call.limit)
  }

  ghost predicate SameResults(t: Task, t2: Task) {
    !Silent(t) && !Silent(t2) && t.call == t2.call && t.results == t2.results
  }

  lemma {:induction false} RecallReads(env: Env, now: int, db: Db, t: Task, to: Effect)
    requires NoZero(env.cfg.rrfK) && RecallStep(env, now, db, t, to) && !Silent(to.task)
    ensures t.Fetching? || SameResults(t, to.task)
    ensures t.Fetching? ==>
      to.task.call == t.call
      && to.task.results == Final(Scorer(env.cfg, env.exp, now), db.memories, t.fused, t.call.limit)
  {
  }

  lemma {:induction false} StepReads(env: Env, now: int, db: Db, t: Task, to: Effect)
    requires NoZero(env.cfg.rrfK) && TaskStep(env, now, db, t, to) && !Silent(to.task)
    ensures t.Fetching? || SameResults(t, to.task)
    ensures t.Fetching? ==>
      to.task.call == t.call
      && to.task.results == Final(Scorer(env.cfg, env.exp, now), db.memories, t.fused, t.call.limit)
  {
    if RetainStep(env, now, db, t, to) {
      RetainIsSilent(env, now, db, t, to);
    } else if LifecycleStep(env, db, t, to) {
      LifecycleIsSilent(env, db, t, to);
    } else if DetectStep(env, db, t, to) {
      DetectIsSilent(env, db, t, to);
    } else if RecallStep(env, now, db, t, to) {
      RecallReads(env, now, db, t, to);
    }
  }

  /** The results of the i-th task come out of the step from `s` to `s2` or were there before it. */
  ghost predicate ReadOrKept(env: Env, s: State, s2: State, i: nat, now: int)
    requires NoZero(env.cfg.rrfK) && i < |s2.tasks| && !Silent(s2.tasks[i])
  {
    && i < |s.tasks|
    && (|| SameResults(s.tasks[i], s2.tasks[i])
        || (s.tasks[i].Fetching? && ReadAt(env, s, i, now, s.tasks[i].fused, s2.tasks[i].call, s2.tasks[i].results)))
  }

  lemma {:induction false} MoveReads(env: Env, s: State, s2: State, j: nat, now: int, to: Effect, i: nat)
    requires NoZero(env.cfg.rrfK) && Moves(env, s, s2, j, now, to) && i < |s2.tasks|
    ensures Silent(s2.tasks[i]) || ReadOrKept(env, s, s2, i, now)
  {
    if i == j {
      if !Silent(to.task) {
        StepReads(env, now, s.db, s.tasks[j], to);
      }
    } else if i >= |s.tasks| {
      assert s2.tasks[i] == to.spawned[i - |s.tasks|];
      SpawnedIsSilent(env, now, s.db, s.tasks[j], to);
    }
  }

  lemma {:induction false} NextReads(env: Env, s: State, s2: State, i: nat)
    requires NoZero(env.cfg.rrfK) && Next(env, s, s2) && i < |s2.tasks| && !Silent(s2.tasks[i])
    ensures exists now :: ReadOrKept(env, s, s2, i, now)
  {
    if j: nat, now: int, to: Effect :| Moves(env, s, s2, j, now, to) {
      MoveReads(env, s, s2, j, now, to, i);
    } else {
      assert ReadOrKept(env, s, s2, i, 0);
    }
  }

  lemma {:induction false} ResultsWereRead(env: Env, run: seq<State>, k: nat, i: nat)
    returns (read: nat, now: int, fused: seq<Fused>)
    requires NoZero(env.cfg.rrfK) && Run(env, run) && k < |run| && i < |run[k].tasks| && !Silent(run[k].tasks[i])
    ensures read < k && ReadAt(env, run[read], i, now, fused, run[k].tasks[i].call, run[k].tasks[i].results)
    decreases k
  {
    assert Next(env, run[k - 1], run[k - 1 + 1]);
    read := k - 1;
    NextReads(env, run[read], run[k], i);
    now :| ReadOrKept(env, run[read], run[k], i, now);
    if SameResults(run[read].tasks[i], run[k].tasks[i]) {
      read, now, fused := ResultsWereRead(env, run, read, i);
    } else {
      fused := run[read].tasks[i].fused;
    }
  }

  lemma {:induction false} ReturnedIsKept(env: Env, run: seq<State>, k: nat, i: nat)
    requires NoZero(env.cfg.rrfK) && Run(env, run) && k < |run| && i < |run[k].tasks| && run[k].tasks[i].Returned?
    ensures Kept(run[k].tasks[i].call, run[k].tasks[i].results)
  {
    RunKeepsInv(env, run, k);
    assert TaskInv(env, run[k].db, run[k].tasks[i]);
  }

  lemma {:induction false} FetchedIsDistinct(env: Env, run: seq<State>, k: nat, i: nat)
    requires NoZero(env.cfg.rrfK) && Run(env, run) && k < |run| && i < |run[k].tasks| && run[k].tasks[i].Fetching?
    ensures Distinct(Map(FusedId, run[k].tasks[i].fused)) && Keyed(run[k].db)
  {
    RunKeepsInv(env, run, k);
    assert TaskInv(env, run[k].db, run[k].tasks[i]);
  }

  ghost predicate IsRowOf(r: Result, memories: map<Id, Memory>) {
    r.memoryId in memories && r.memory == memories[r.memoryId] && r.memory.id == r.memoryId
  }

  lemma {:induction false} PromisedAreRows(results: seq<Result>, s: Scorer, db: Db, fused: seq<Fused>, limit: nat)
    requires NoZero(s.cfg.rrfK) && Keyed(db) && Promise(results, s, db.memories, fused, limit)
    ensures forall j :: 0 <= j < |results| ==> IsRowOf(results[j], db.memories)
  {
    forall j | 0 <= j < |results| ensures IsRowOf(results[j], db.memories) {
      assert FromRow(results[j], s, db.memories, fused);
    }
  }

  /** In every interleaving, a recall returns what one earlier state of the database, the one it
      fetched in, called for: at most `limit` distinct memories in descending order of effective
      score, each the row that its identifier had in that state, valid, retrievable and of the
      calling agent, and no candidate with a better score left out. */
  lemma {:induction false} RecallIsSound(env: Env, run: seq<State>, k: nat, i: nat)
    returns (read: nat, now: int, fused: seq<Fused>)
    requires NoZero(env.cfg.rrfK) && Run(env, run) && k < |run| && i < |run[k].tasks|
    requires run[k].tasks[i].Returned?
    ensures Kept(run[k].tasks[i].call, run[k].tasks[i].results)
    ensures read < k && i < |run[read].tasks| && run[read].tasks[i] == Fetching(run[k].tasks[i].call, fused)
    ensures
      var results, memories := run[k].tasks[i].results, run[read].db.memories;
      && Promise(results, Scorer(env.cfg, env.exp, now), memories, fused, run[k].tasks[i].call.limit)
      && forall j :: 0 <= j < |results| ==> IsRowOf(results[j], memories)
  {
    ReturnedIsKept(env, run, k, i);
    read, now, fused := ResultsWereRead(env, run, k, i);
    FetchedIsDistinct(env, run, read, i);
    var call, results, s := run[k].tasks[i].call, run[k].tasks[i].results, Scorer(env.cfg, env.exp, now);
    FinalKeepsPromise(s, run[read].db.memories, fused, call.limit);
    PromisedAreRows(results, s, run[read].db, fused, call.limit);
  }

  // ---- The link graph ----------------------------------------------------------------------

  /** The task has written `k` and not yet its reverse. */
  predicate Owes(t: Task, k: LinkKey)
  {
    match t
    case DetectReverse(_, embs, i, j, _) => i < |embs| && j < |embs| && Forward(embs, i, j) == k
    case Stopped(at) => Owes(at, k)
    case _ => false
  }

  ghost predicate Paired(s: State, k: LinkKey) {
    Mirror(k) in s.db.links || exists i :: 0 <= i < |s.tasks| && Owes(s.tasks[i], k)
  }

  ghost predicate MirrorInv(s: State) {
    forall k :: k in s.db.links ==> Paired(s, k)
  }

  lemma {:induction false} DetectPairs(env: Env, db: Db, t: Task, to: Effect, k: LinkKey)
    requires TaskInv(env, db, t) && DetectStep(env, db, t, to)
    ensures k in to.db.links && k !in db.links ==> Mirror(k) in to.db.links || Owes(to.task, k)
    ensures Owes(t, k) ==> Mirror(k) in to.db.links
  {
  }

  /** What one step does to the links and to what its task owes. */
  lemma {:induction false} StepPairs(env: Env, now: int, db: Db, t: Task, to: Effect, k: LinkKey)
    requires NoZero(env.cfg.rrfK) && TaskInv(env, db, t) && TaskStep(env, now, db, t, to)
    ensures k in to.db.links && k !in db.links ==> Mirror(k) in to.db.links || Owes(to.task, k)
    ensures Owes(t, k) ==> Mirror(k) in to.db.links || Owes(to.task, k)
  {
    if DetectStep(env, db, t, to) {
      DetectPairs(env, db, t, to, k);
    } else {
      OthersWriteNoLinks(env, now, db, t, to);
    }
  }

  lemma {:induction false} OthersWriteNoLinks(env: Env, now: int, db: Db, t: Task, to: Effect)
    requires NoZero(env.cfg.rrfK) && TaskStep(env, now, db, t, to) && !DetectStep(env, db, t, to)
    ensures to.db.links == db.links && (t.DetectReverse? ==> to.task == Stopped(t))
  {
    if RetainStep(env, now, db, t, to) {
      RetainIsSilent(env, now, db, t, to);
    } else if LifecycleStep(env, db, t, to) {
      LifecycleIsSilent(env, db, t, to);
    } else if RecallStep(env, now, db, t, to) {
      RecallSpawnsNothing(env, now, db, t, to);
    }
  }

  lemma {:induction false} MoveKeepsMirrors(env: Env, s: State, s2: State, i: nat, now: int, to: Effect)
    requires NoZero(env.cfg.rrfK) && Inv(env, s) && MirrorInv(s) && Moves(env, s, s2, i, now, to)
    ensures MirrorInv(s2)
  {
    MoveKeepsInv(env, s, s2, i, now, to);
    forall k | k in s2.db.links ensures Paired(s2, k) {
      StepPairs(env, now, s.db, s.tasks[i], to, k);
      assert s2.tasks[i] == to.task;
      if k in s.db.links && Mirror(k) !in s.db.links {
        var j :| 0 <= j < |s.tasks| && Owes(s.tasks[j], k);
        if j != i {
          assert Owes(s2.tasks[j], k);
        }
      }
    }
  }

  lemma {:induction false} NextKeepsMirrors(env: Env, s: State, s2: State)
    requires NoZero(env.cfg.rrfK) && Inv(env, s) && MirrorInv(s) && Next(env, s, s2)
    ensures MirrorInv(s2)
  {
    if i: nat, now: int, to: Effect :| Moves(env, s, s2, i, now, to) {
      MoveKeepsMirrors(env, s, s2, i, now, to);
    } else {
      forall k | k in s2.db.links ensures Paired(s2, k) {
        if Mirror(k) !in s.db.links {
          var j :| 0 <= j < |s.tasks| && Owes(s.tasks[j], k);
          assert s2.tasks[j] == s.tasks[j];
        }
      }
    }
  }

  lemma {:induction false} RunKeepsMirrors(env: Env, run: seq<State>, k: nat)
    requires NoZero(env.cfg.rrfK) && Run(env, run) && k < |run|
    ensures MirrorInv(run[k])
  {
    var inv := (s: State) => Inv(env, s) && MirrorInv(s);
    assert inv(run[0]);
    forall s, s2 | inv(s) && Steps(env)(s, s2) ensures inv(s2) {
      NextKeepsInv(env, s, s2);
      NextKeepsMirrors(env, s, s2);
    }
    RunSteps(env, run);
    Invariant(run, Steps(env), inv, 0, k);
    assert inv(run[k]);
  }

  /** Whenever no detection stands, or was stopped, between its two writes, the link graph is
      symmetric with equal weights, whatever detections overlapped; it never has self-links, links
      across agents or weights outside [-1, 1]. */
  lemma {:induction false} LinksAreSymmetricAtRest(env: Env, run: seq<State>, k: nat)
    requires NoZero(env.cfg.rrfK) && IsSqrt(env.sqrt) && Run(env, run) && k < |run|
    ensures NoSelfLinks(run[k].db.links) && UnitWeights(run[k].db.links)
    ensures forall l :: l in run[k].db.links ==> JoinsOneAgent(run[k].db.memories, l)
    ensures (forall i, l :: 0 <= i < |run[k].tasks| ==> !Owes(run[k].tasks[i], l)) ==> Symmetric(run[k].db.links)
  {
    var db := run[k].db;
    RunKeepsInv(env, run, k);
    RunKeepsMirrors(env, run, k);
    forall l | l in db.links ensures l.source != l.target && -1.0 <= db.links[l].weight <= 1.0 {
      assert JoinsOneAgent(db.memories, l) && WeightOk(env, db.memories, db.links[l]);
      CosineInUnit(env.sqrt, First(env, db.memories, l.source), First(env, db.memories, l.target));
    }
    forall l | l in db.links && Mirror(l) in db.links ensures HasMirror(db.links, l) {
      assert WeightOk(env, db.memories, db.links[l]) && WeightOk(env, db.memories, db.links[Mirror(l)]);
      CosineCommutes(env.sqrt, First(env, db.memories, l.source), First(env, db.memories, l.target));
    }
    if forall i, l :: 0 <= i < |run[k].tasks| ==> !Owes(run[k].tasks[i], l) {
      forall l | l in db.links ensures HasMirror(db.links, l) {
        assert Paired(run[k], l);
      }
    }
  }
}

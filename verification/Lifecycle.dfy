/** Promotion and demotion of memories: `sweep` and `finalize_session`
    (crates/rustykrab-memory/src/lifecycle.rs).  Run with no other writer between its reads and its
    writes, a sweep is a function of the memories; what the interleaved sweep keeps is proved in
    `Engine`. */
module Lifecycle {
  import opened Options
  import opened MemoryTypes
  import opened Ranking
  import opened Storage

  // ---- The rules, one memory at a time -----------------------------------------------------

  /** A sweep's fixed inputs: configuration, exponential function, instant. */
  datatype Rules = Rules(cfg: Config, exp: real -> real, now: int) {
    predicate Idle(m: Memory) {
      now - m.LastTouched() >= cfg.workingMaxIdleMinutes * MINUTE
    }

    predicate Promotes(m: Memory) {
      m.accessCount >= cfg.promoteMinAccessCount && now - m.created >= cfg.promoteMinAgeDays * DAY
    }

    predicate Demotes(m: Memory) {
      && m.Decayed(exp, now) < cfg.archiveScoreThreshold
      && WholeHours(now - m.LastTouched()) as real / 24.0 > 30.0
    }

    predicate Retires(m: Memory) {
      && now - m.LastTouched() >= cfg.tombstoneIdleDays * DAY
      && m.importance < cfg.tombstoneImportanceThreshold
    }

    /** The stage one sweep leaves a valid memory in. */
    function Swept(m: Memory): Stage {
      var first := if m.stage.Working? && Idle(m) then Episodic else m.stage;
      var second :=
        if first.Episodic? && Promotes(m) then Stage.Semantic
        else if first.Episodic? && Demotes(m) then Archival
        else first;
      if second.Archival? && Retires(m) then Tombstone else second
    }
  }

  function SweptAll(r: Rules, memories: map<Id, Memory>, agent: Id): map<Id, Memory> {
    map id | id in memories ::
      var m := memories[id];
      if m.agent == agent && m.isValid then m.(stage := r.Swept(m)) else m
  }

  datatype SweepStats = SweepStats(toEpisodic: nat, toSemantic: nat, toArchival: nat, tombstoned: nat)

  function Restage(memories: map<Id, Memory>, ids: set<Id>, stage: Stage): map<Id, Memory> {
    map id | id in memories :: if id in ids then memories[id].(stage := stage) else memories[id]
  }

  function Where(memories: map<Id, Memory>, p: Memory -> bool): set<Id> {
    set id | id in memories && p(memories[id])
  }

  /** The four moves of one sweep, each read off the memories as the previous ones left them. */
  datatype Moves = Moves(toEpisodic: set<Id>, toSemantic: set<Id>, toArchival: set<Id>, toTombstone: set<Id>) {
    function Stats(): SweepStats {
      SweepStats(|toEpisodic|, |toSemantic|, |toArchival|, |toTombstone|)
    }
  }

  function Both<T>(p: T -> bool, q: T -> bool): T -> bool {
    (x: T) => p(x) && q(x)
  }

  function Idlers(r: Rules, agent: Id): Memory -> bool {
    Both(InStage(agent, Working), (m: Memory) => r.Idle(m))
  }

  function Promoted(r: Rules, agent: Id): Memory -> bool {
    Both(InStage(agent, Episodic), (m: Memory) => r.Promotes(m))
  }

  function Demoted(r: Rules, agent: Id): Memory -> bool {
    Both(InStage(agent, Episodic), (m: Memory) => !r.Promotes(m) && r.Demotes(m))
  }

  function Retired(r: Rules, agent: Id): Memory -> bool {
    Both(InStage(agent, Archival), (m: Memory) => r.Retires(m))
  }

  function AfterFirst(r: Rules, memories: map<Id, Memory>, agent: Id): map<Id, Memory> {
    Restage(memories, Where(memories, Idlers(r, agent)), Episodic)
  }

  function AfterSecond(r: Rules, memories: map<Id, Memory>, agent: Id): map<Id, Memory> {
    Restage(Restage(memories, Where(memories, Promoted(r, agent)), Stage.Semantic),
            Where(memories, Demoted(r, agent)), Archival)
  }

  function AfterThird(r: Rules, memories: map<Id, Memory>, agent: Id): map<Id, Memory> {
    Restage(memories, Where(memories, Retired(r, agent)), Tombstone)
  }

  function MovesOf(r: Rules, memories: map<Id, Memory>, agent: Id): Moves {
    var first := AfterFirst(r, memories, agent);
    var second := AfterSecond(r, first, agent);
    Moves(Where(memories, Idlers(r, agent)), Where(first, Promoted(r, agent)),
          Where(first, Demoted(r, agent)), Where(second, Retired(r, agent)))
  }

  /** No rule looks at the stage. */
  lemma {:induction false} RulesIgnoreStage(r: Rules, m: Memory, stage: Stage)
    ensures r.Idle(m.(stage := stage)) == r.Idle(m) && r.Promotes(m.(stage := stage)) == r.Promotes(m)
    ensures r.Demotes(m.(stage := stage)) == r.Demotes(m) && r.Retires(m.(stage := stage)) == r.Retires(m)
  {
  }

  /** What one pass makes of one memory. */
  function If(c: bool, m: Memory, stage: Stage): Memory {
    if c then m.(stage := stage) else m
  }

  lemma {:induction false} PassesOnOne(r: Rules, agent: Id, m: Memory, first: Memory, second: Memory, third: Memory)
    requires first == If(Idlers(r, agent)(m), m, Episodic)
    requires second
      == If(Promoted(r, agent)(first), If(Demoted(r, agent)(first), first, Archival), Stage.Semantic)
    requires third == If(Retired(r, agent)(second), second, Tombstone)
    ensures third == If(m.agent == agent && m.isValid, m, r.Swept(m))
  {
    RulesIgnoreStage(r, m, Episodic);
    RulesIgnoreStage(r, m, Stage.Semantic);
    RulesIgnoreStage(r, m, Archival);
  }

  /** The three passes, one after the other, are the per-memory rule. */
  lemma {:induction false} PassesAreTheRule(r: Rules, memories: map<Id, Memory>, agent: Id)
    ensures
      AfterThird(r, AfterSecond(r, AfterFirst(r, memories, agent), agent), agent) == SweptAll(r, memories, agent)
  {
    var first := AfterFirst(r, memories, agent);
    var second := AfterSecond(r, first, agent);
    var third := AfterThird(r, second, agent);
    var swept := SweptAll(r, memories, agent);
    forall id | id in memories ensures id in third && third[id] == swept[id] {
      assert id in first && id in second;
      PassesOnOne(r, agent, memories[id], first[id], second[id], third[id]);
    }
  }

  // ---- Choosing and writing back -----------------------------------------------------------

  /** The updates a loop over `rows` pushes. */
  function Chosen(rows: seq<Memory>, p: Memory -> bool, stage: Stage): seq<(Id, Stage)> {
    if rows == [] then []
    else
      var n := |rows| - 1;
      Chosen(rows[..n], p, stage) + if p(rows[n]) then [(rows[n].id, stage)] else []
  }

  function ChosenIds(rows: seq<Memory>, p: Memory -> bool): set<Id> {
    set i | 0 <= i < |rows| && p(rows[i]) :: rows[i].id
  }

  lemma {:induction false} BatchSnoc(memories: map<Id, Memory>, updates: seq<(Id, Stage)>, id: Id, stage: Stage)
    ensures BatchRestaged(memories, updates + [(id, stage)])
      == Restaged(BatchRestaged(memories, updates), id, stage)
    ensures Affected(memories, updates + [(id, stage)])
      == Affected(memories, updates) + if id in memories then 1 else 0
  {
    assert (updates + [(id, stage)])[..|updates|] == updates;
  }

  lemma {:induction false} RestageOneMore(memories: map<Id, Memory>, ids: set<Id>, id: Id, stage: Stage)
    ensures Restaged(Restage(memories, ids, stage), id, stage) == Restage(memories, ids + {id}, stage)
  {
  }

  lemma {:induction false} WriteBack(rows: seq<Memory>, p: Memory -> bool, stage: Stage, memories: map<Id, Memory>)
    requires Distinct(Map(MemoryId, rows))
    requires forall i :: 0 <= i < |rows| ==> rows[i].id in memories
    ensures BatchRestaged(memories, Chosen(rows, p, stage)) == Restage(memories, ChosenIds(rows, p), stage)
    ensures Affected(memories, Chosen(rows, p, stage)) == |ChosenIds(rows, p)|
    decreases |rows|
  {
    if rows == [] {
      assert Restage(memories, {}, stage) == memories;
    } else {
      var n := |rows| - 1;
      var front, last := rows[..n], rows[n];
      assert Map(MemoryId, front) == Map(MemoryId, rows)[..n];
      WriteBack(front, p, stage, memories);
      ChosenSnoc(rows, p);
      if p(last) {
        LastIsNew(rows, p);
        WriteOneMore(memories, Chosen(front, p, stage), ChosenIds(front, p), last.id, stage);
      } else {
        assert Chosen(rows, p, stage) == Chosen(front, p, stage);
        assert ChosenIds(rows, p) == ChosenIds(front, p);
      }
    }
  }

  lemma {:induction false} WriteOneMore(memories: map<Id, Memory>, updates: seq<(Id, Stage)>, ids: set<Id>, id: Id,
        stage: Stage)
    requires BatchRestaged(memories, updates) == Restage(memories, ids, stage) && Affected(memories, updates) == |ids|
    requires id in memories && id !in ids
    ensures BatchRestaged(memories, updates + [(id, stage)]) == Restage(memories, ids + {id}, stage)
    ensures Affected(memories, updates + [(id, stage)]) == |ids + {id}|
  {
    BatchSnoc(memories, updates, id, stage);
    RestageOneMore(memories, ids, id, stage);
  }

  lemma {:induction false} LastIsNew(rows: seq<Memory>, p: Memory -> bool)
    requires rows != [] && Distinct(Map(MemoryId, rows))
    ensures rows[|rows| - 1].id !in ChosenIds(rows[..|rows| - 1], p)
  {
    var n := |rows| - 1;
    forall i | 0 <= i < n ensures rows[..n][i].id != rows[n].id {
      assert Map(MemoryId, rows)[i] != Map(MemoryId, rows)[n];
    }
  }

  lemma {:induction false} ChosenSnoc(rows: seq<Memory>, p: Memory -> bool)
    requires rows != []
    ensures
      var n := |rows| - 1;
      ChosenIds(rows, p) == ChosenIds(rows[..n], p) + if p(rows[n]) then {rows[n].id} else {}
  {
    var n := |rows| - 1;
    var front := ChosenIds(rows[..n], p);
    forall id | id in ChosenIds(rows, p) ensures id in front + if p(rows[n]) then {rows[n].id} else {} {
      var i :| 0 <= i < |rows| && p(rows[i]) && rows[i].id == id;
      if i < n {
        assert rows[..n][i] == rows[i];
      }
    }
    forall id | id in front ensures id in ChosenIds(rows, p) {
      var i :| 0 <= i < n && p(rows[..n][i]) && rows[..n][i].id == id;
      assert rows[i] == rows[..n][i];
    }
  }

  /** Over a listing, the ids chosen are those of all memories that meet both conditions. */
  lemma {:induction false} ChosenFromListing(rows: seq<Memory>, memories: map<Id, Memory>, listed: Memory -> bool,
        p: Memory -> bool)
    requires Listing(rows, memories, listed, MemoryId)
    ensures ChosenIds(rows, p) == Where(memories, Both(listed, p))
  {
    forall id | id in Where(memories, Both(listed, p)) ensures id in ChosenIds(rows, p) {
      var i :| 0 <= i < |rows| && Map(MemoryId, rows)[i] == id;
      assert rows[i].id == id;
    }
  }

  /** Every listed memory is chosen. */
  lemma {:induction false} WholeSession(rows: seq<Memory>, memories: map<Id, Memory>, listed: Memory -> bool,
        p: Memory -> bool)
    requires Listing(rows, memories, listed, MemoryId) && forall m :: p(m)
    requires forall id :: id in memories ==> memories[id].id == id
    ensures BatchRestaged(memories, Chosen(rows, p, Episodic)) == Restage(memories, Where(memories, listed), Episodic)
    ensures Affected(memories, Chosen(rows, p, Episodic)) == |Where(memories, listed)|
  {
    WriteBack(rows, p, Episodic, memories);
    ChosenFromListing(rows, memories, listed, p);
    assert Where(memories, Both(listed, p)) == Where(memories, listed);
  }

  class LifecycleManager {
    const storage: SqliteMemoryStorage
    const cfg: Config
    const exp: real -> real

    constructor (storage: SqliteMemoryStorage, cfg: Config, exp: real -> real)
      ensures this.storage == storage && this.cfg == cfg && this.exp == exp
    {
      this.storage := storage;
      this.cfg := cfg;
      this.exp := exp;
    }

    method PromoteWorking(agent: Id, now: int) returns (count: nat)
      requires storage.Valid()
      modifies storage`memories
      ensures storage.Valid()
      ensures storage.memories == AfterFirst(Rules(cfg, exp, now), old(storage.memories), agent)
      ensures count == |Where(old(storage.memories), Idlers(Rules(cfg, exp, now), agent))|
    {
      ghost var r := Rules(cfg, exp, now);
      ghost var p := (m: Memory) => r.Idle(m);
      var working := storage.ListByStage(agent, Working);
      var threshold := cfg.workingMaxIdleMinutes * MINUTE;
      var promotions := [];
      for i := 0 to |working|
        invariant promotions == Chosen(working[..i], p, Episodic)
      {
        assert working[..i + 1][..i] == working[..i];
        var idle := now - working[i].LastTouched();
        if idle >= threshold {
          promotions := promotions + [(working[i].id, Episodic)];
        }
      }
      assert working[..|working|] == working;
      WriteBack(working, p, Episodic, storage.memories);
      ChosenFromListing(working, storage.memories, InStage(agent, Working), p);
      count := WriteStages(promotions);
    }

    /** `if !updates.is_empty() { batch_update_stages(&updates) }`. */
    method WriteStages(updates: seq<(Id, Stage)>) returns (count: nat)
      requires storage.Valid()
      modifies storage`memories
      ensures storage.Valid()
      ensures storage.memories == BatchRestaged(old(storage.memories), updates)
      ensures count == Affected(old(storage.memories), updates)
    {
      count := 0;
      if updates != [] {
        count := storage.BatchUpdateStages(updates);
      }
    }

    method SweepEpisodic(agent: Id, now: int) returns (promoted: nat, demoted: nat)
      requires storage.Valid()
      modifies storage`memories
      ensures storage.Valid()
      ensures storage.memories == AfterSecond(Rules(cfg, exp, now), old(storage.memories), agent)
      ensures promoted == |Where(old(storage.memories), Promoted(Rules(cfg, exp, now), agent))|
      ensures demoted == |Where(old(storage.memories), Demoted(Rules(cfg, exp, now), agent))|
    {
      var r := Rules(cfg, exp, now);
      ghost var p := (m: Memory) => r.Promotes(m);
      ghost var q := (m: Memory) => !r.Promotes(m) && r.Demotes(m);
      var episodic := storage.ListByStage(agent, Episodic);
      var promotions, demotions := [], [];
      for i := 0 to |episodic|
        invariant promotions == Chosen(episodic[..i], p, Stage.Semantic)
        invariant demotions == Chosen(episodic[..i], q, Archival)
      {
        assert episodic[..i + 1][..i] == episodic[..i];
        var m := episodic[i];
        var age := now - m.created;
        if m.accessCount >= cfg.promoteMinAccessCount && age >= cfg.promoteMinAgeDays * DAY {
          promotions := promotions + [(m.id, Stage.Semantic)];
          continue;
        }
        var idleHours := WholeHours(now - m.LastTouched()) as real;
        var score := m.Decayed(exp, now);
        if score < cfg.archiveScoreThreshold && idleHours / 24.0 > 30.0 {
          demotions := demotions + [(m.id, Archival)];
        }
      }
      assert episodic[..|episodic|] == episodic;
      WriteBack(episodic, p, Stage.Semantic, storage.memories);
      ChosenFromListing(episodic, storage.memories, InStage(agent, Episodic), p);
      ChosenFromListing(episodic, storage.memories, InStage(agent, Episodic), q);
      promoted := WriteStages(promotions);
      WriteBack(episodic, q, Archival, storage.memories);
      demoted := WriteStages(demotions);
    }

    method TombstoneArchival(agent: Id, now: int) returns (count: nat)
      requires storage.Valid()
      modifies storage`memories
      ensures storage.Valid()
      ensures storage.memories == AfterThird(Rules(cfg, exp, now), old(storage.memories), agent)
      ensures count == |Where(old(storage.memories), Retired(Rules(cfg, exp, now), agent))|
    {
      ghost var r := Rules(cfg, exp, now);
      ghost var p := (m: Memory) => r.Retires(m);
      var archival := storage.ListByStage(agent, Archival);
      var threshold := cfg.tombstoneIdleDays * DAY;
      var tombstones := [];
      for i := 0 to |archival|
        invariant tombstones == Chosen(archival[..i], p, Tombstone)
      {
        assert archival[..i + 1][..i] == archival[..i];
        var idle := now - archival[i].LastTouched();
        if idle >= threshold && archival[i].importance < cfg.tombstoneImportanceThreshold {
          tombstones := tombstones + [(archival[i].id, Tombstone)];
        }
      }
      assert archival[..|archival|] == archival;
      WriteBack(archival, p, Tombstone, storage.memories);
      ChosenFromListing(archival, storage.memories, InStage(agent, Archival), p);
      count := WriteStages(tombstones);
    }

    method Sweep(agent: Id, now: int) returns (stats: SweepStats)
      requires storage.Valid()
      modifies storage`memories
      ensures storage.Valid()
      ensures storage.memories == SweptAll(Rules(cfg, exp, now), old(storage.memories), agent)
      ensures stats == MovesOf(Rules(cfg, exp, now), old(storage.memories), agent).Stats()
    {
      PassesAreTheRule(Rules(cfg, exp, now), storage.memories, agent);
      var toEpisodic := PromoteWorking(agent, now);
      var toSemantic, toArchival := SweepEpisodic(agent, now);
      var tombstoned := TombstoneArchival(agent, now);
      stats := SweepStats(toEpisodic, toSemantic, toArchival, tombstoned);
    }

    /** Exactly the session's valid working memories become episodic, and are counted. */
    method FinalizeSession(agent: Id, session: Id) returns (count: nat)
      requires storage.Valid()
      modifies storage`memories
      ensures storage.Valid()
      ensures storage.memories
        == Restage(old(storage.memories), Where(old(storage.memories), InSession(agent, session, Working)), Episodic)
      ensures count == |Where(old(storage.memories), InSession(agent, session, Working))|
    {
      ghost var p := (m: Memory) => true;
      var working := storage.ListBySessionAndStage(agent, session, Working);
      WholeSession(working, storage.memories, InSession(agent, session, Working), p);
      if working == [] {
        assert Chosen(working, p, Episodic) == [];
        return 0;
      }
      var promotions := [];
      for i := 0 to |working|
        invariant promotions == Chosen(working[..i], p, Episodic)
      {
        assert working[..i + 1][..i] == working[..i];
        promotions := promotions + [(working[i].id, Episodic)];
      }
      assert working[..|working|] == working;
      count := storage.BatchUpdateStages(promotions);
    }
  }

  // ---- What a sweep promises ---------------------------------------------------------------

  /** One step along Working -> Episodic -> {Semantic, Archival}, Archival -> Tombstone. */
  predicate Step(a: Stage, b: Stage) {
    || (a.Working? && b.Episodic?)
    || (a.Episodic? && (b.Semantic? || b.Archival?))
    || (a.Archival? && b.Tombstone?)
  }

  ghost predicate Reaches(a: Stage, b: Stage, steps: nat)
    decreases steps
  {
    if steps == 0 then a == b else exists c :: Step(a, c) && Reaches(c, b, steps - 1)
  }

  lemma {:induction false} ReachesInOne(a: Stage, b: Stage)
    requires Step(a, b)
    ensures Reaches(a, b, 1)
  {
    assert Reaches(b, b, 0);
  }

  lemma {:induction false} ReachesByStep(a: Stage, b: Stage, c: Stage, steps: nat)
    requires Step(a, b) && Reaches(b, c, steps)
    ensures Reaches(a, c, steps + 1)
  {
  }

  /** A sweep moves a memory only along the life cycle, by at most three steps. */
  lemma {:induction false} SweepFollowsTheCycle(r: Rules, m: Memory)
    ensures exists steps :: 0 <= steps <= 3 && Reaches(m.stage, r.Swept(m), steps)
  {
    var a, b := m.stage, r.Swept(m);
    if a == b {
      assert Reaches(a, b, 0);
    } else if Step(a, b) {
      ReachesInOne(a, b);
    } else if b.Tombstone? {
      ReachesInOne(Archival, b);
      ReachesByStep(Episodic, Archival, b, 1);
      if a.Working? {
        ReachesByStep(a, Episodic, b, 2);
      }
    } else {
      ReachesInOne(Episodic, b);
      ReachesByStep(a, Episodic, b, 1);
    }
  }

  /** Swept again at the same instant, nothing changes. */
  lemma {:induction false} SweepIsAFixpoint(r: Rules, memories: map<Id, Memory>, agent: Id)
    ensures SweptAll(r, SweptAll(r, memories, agent), agent) == SweptAll(r, memories, agent)
  {
    var once := SweptAll(r, memories, agent);
    var twice := SweptAll(r, once, agent);
    assert twice.Keys == once.Keys;
    forall id | id in once ensures twice[id] == once[id] {
      SweptTwice(r, memories[id]);
    }
  }

  lemma {:induction false} SweptTwice(r: Rules, m: Memory)
    ensures r.Swept(m.(stage := r.Swept(m))) == r.Swept(m)
  {
  }

  function Population(memories: map<Id, Memory>, agent: Id, stage: Stage): nat {
    |Where(memories, InStage(agent, stage))|
  }

  /** Moving `ids` out of one stage and into another moves that much population. */
  lemma {:induction false} RestageMoves(memories: map<Id, Memory>, agent: Id, ids: set<Id>, from: Stage, to: Stage,
        stage: Stage)
    requires from != to && ids <= Where(memories, InStage(agent, from))
    ensures Population(Restage(memories, ids, to), agent, stage)
      == Population(memories, agent, stage)
         + (if stage == to then |ids| else 0) - (if stage == from then |ids| else 0)
  {
    var before := Where(memories, InStage(agent, stage));
    MembersMove(memories, agent, ids, from, to, stage);
    if stage == to {
      CountUnion(before, ids);
    } else if stage == from {
      CountMinus(before, ids);
    }
  }

  lemma {:induction false} CountUnion<T>(a: set<T>, b: set<T>)
    requires a !! b
    ensures |a + b| == |a| + |b|
  {
  }

  lemma {:induction false} CountMinus<T>(a: set<T>, b: set<T>)
    requires b <= a
    ensures |a - b| == |a| - |b|
  {
  }

  lemma {:induction false} MembersMove(memories: map<Id, Memory>, agent: Id, ids: set<Id>, from: Stage, to: Stage,
        stage: Stage)
    requires from != to && ids <= Where(memories, InStage(agent, from))
    ensures
      var before, after :=
        Where(memories, InStage(agent, stage)), Where(Restage(memories, ids, to), InStage(agent, stage));
      && after == (if stage == to then before + ids else if stage == from then before - ids else before)
      && (stage == to ==> before !! ids)
      && (stage == from ==> ids <= before)
  {
    var after := Where(Restage(memories, ids, to), InStage(agent, stage));
    forall id ensures id in after <==>
      id in memories && if id in ids then stage == to else InStage(agent, stage)(memories[id])
    {
      if id in ids {
        assert InStage(agent, from)(memories[id]);
      }
    }
  }

  lemma {:induction false} SecondPassMoves(r: Rules, memories: map<Id, Memory>, agent: Id, stage: Stage)
    ensures
      var up, down := |Where(memories, Promoted(r, agent))|, |Where(memories, Demoted(r, agent))|;
      Population(AfterSecond(r, memories, agent), agent, stage)
      == Population(memories, agent, stage)
         + (if stage.Semantic? then up else 0) + (if stage.Archival? then down else 0)
         - (if stage.Episodic? then up + down else 0)
  {
    var up, down := Where(memories, Promoted(r, agent)), Where(memories, Demoted(r, agent));
    var between := Restage(memories, up, Stage.Semantic);
    RestageMoves(memories, agent, up, Episodic, Stage.Semantic, stage);
    assert down <= Where(between, InStage(agent, Episodic));
    RestageMoves(between, agent, down, Episodic, Archival, stage);
  }

  /** What the counters say a stage gains. */
  function Net(s: SweepStats, stage: Stage): int {
    match stage
    case Working => 0 - s.toEpisodic
    case Episodic => s.toEpisodic - s.toSemantic - s.toArchival
    case Semantic => s.toSemantic
    case Archival => s.toArchival - s.tombstoned
    case Tombstone => s.tombstoned
  }

  /** The four counters are exactly the change in each stage's population among the agent's valid
      memories. */
  lemma {:induction false} CountersConserve(r: Rules, memories: map<Id, Memory>, agent: Id, stage: Stage)
    ensures Population(SweptAll(r, memories, agent), agent, stage)
      == Population(memories, agent, stage) + Net(MovesOf(r, memories, agent).Stats(), stage)
  {
    var first := AfterFirst(r, memories, agent);
    var second := AfterSecond(r, first, agent);
    PassesAreTheRule(r, memories, agent);
    RestageMoves(memories, agent, Where(memories, Idlers(r, agent)), Working, Episodic, stage);
    SecondPassMoves(r, first, agent, stage);
    RestageMoves(second, agent, Where(second, Retired(r, agent)), Archival, Tombstone, stage);
  }

  // ---- Batches over tombstones -------------------------------------------------------------

  /** The `i`-th update is the last that names `id`. */
  predicate LastNames(updates: seq<(Id, Stage)>, id: Id, i: nat) {
    i < |updates| && updates[i].0 == id && forall j :: i < j < |updates| ==> updates[j].0 != id
  }

  /** The last update that names `id` writes another stage than Tombstone. */
  ghost predicate Revives(updates: seq<(Id, Stage)>, id: Id) {
    exists i: nat :: LastNames(updates, id, i) && updates[i].1 != Tombstone
  }

  lemma {:induction false} BatchLeaves(memories: map<Id, Memory>, updates: seq<(Id, Stage)>, id: Id)
    requires id in memories && forall i :: 0 <= i < |updates| ==> updates[i].0 != id
    ensures var after := BatchRestaged(memories, updates); id in after && after[id] == memories[id]
    decreases |updates|
  {
    if updates != [] {
      BatchLeaves(memories, updates[..|updates| - 1], id);
    }
  }

  /** Only the last update that names a memory counts, and it writes nothing but the stage. */
  lemma {:induction false} LastUpdateWins(memories: map<Id, Memory>, updates: seq<(Id, Stage)>, id: Id, i: nat)
    requires id in memories && LastNames(updates, id, i)
    ensures var after := BatchRestaged(memories, updates);
      id in after && after[id] == memories[id].(stage := updates[i].1)
    decreases |updates|
  {
    var n := |updates| - 1;
    BatchKeys(memories, updates[..n]);
    if i < n {
      assert LastNames(updates[..n], id, i);
      LastUpdateWins(memories, updates[..n], id, i);
    } else {
      BatchRestages(memories, updates[..n], id);
    }
  }

  /** A batch writes nothing but stages. */
  lemma {:induction false} BatchRestages(memories: map<Id, Memory>, updates: seq<(Id, Stage)>, id: Id)
    requires id in memories
    ensures var after := BatchRestaged(memories, updates); id in after && after[id] == memories[id].(stage := after[id].stage)
    decreases |updates|
  {
    if updates != [] {
      BatchRestages(memories, updates[..|updates| - 1], id);
    }
  }

  lemma {:induction false} BatchKeys(memories: map<Id, Memory>, updates: seq<(Id, Stage)>)
    ensures BatchRestaged(memories, updates).Keys == memories.Keys
    decreases |updates|
  {
    if updates != [] {
      BatchKeys(memories, updates[..|updates| - 1]);
    }
  }

  lemma {:induction false} LastIndex(updates: seq<(Id, Stage)>, id: Id) returns (last: Option<nat>)
    ensures match last
      case Some(i) => LastNames(updates, id, i)
      case None => forall i :: 0 <= i < |updates| ==> updates[i].0 != id
  {
    var i := |updates|;
    while i > 0
      invariant 0 <= i <= |updates|
      invariant forall j :: i <= j < |updates| ==> updates[j].0 != id
    {
      i := i - 1;
      if updates[i].0 == id {
        return Some(i);
      }
    }
    last := None;
  }

  /** The stage is no safe mark of deletion: a batch overwrites a tombstone exactly when the last
      update that names the memory writes another stage.  Everything else about it stays, so the
      validity flag survives every batch. */
  lemma {:induction false} TombstoneLostExactlyWhen(memories: map<Id, Memory>, updates: seq<(Id, Stage)>, id: Id)
    requires id in memories && memories[id].stage == Tombstone
    ensures
      var after := BatchRestaged(memories, updates);
      && id in after
      && (after[id].stage != Tombstone <==> Revives(updates, id))
      && after[id] == memories[id].(stage := after[id].stage)
  {
    var last := LastIndex(updates, id);
    BatchRestages(memories, updates, id);
    if last.Some? {
      LastUpdateWins(memories, updates, id, last.value);
      forall i: nat | LastNames(updates, id, i) ensures i == last.value {
      }
    } else {
      BatchLeaves(memories, updates, id);
    }
  }

  /** So a batch computed before an invalidation and written after it makes the memory retrievable by
      stage again exactly when its last entry for the memory says so; the memory stays invalid. */
  lemma {:induction false} StaleBatchRevivesStage(db: Db, id: Id, successor: Option<Id>, now: int,
        updates: seq<(Id, Stage)>)
    requires id in db.memories
    ensures
      var after := BatchRestaged(Invalidated(db, id, successor, now).memories, updates);
      && id in after && !after[id].isValid
      && (after[id].stage.IsRetrievable()
          <==> exists i: nat :: LastNames(updates, id, i) && updates[i].1.IsRetrievable())
  {
    var tombstoned := Invalidated(db, id, successor, now).memories;
    var last := LastIndex(updates, id);
    if last.Some? {
      LastUpdateWins(tombstoned, updates, id, last.value);
      forall i: nat | LastNames(updates, id, i) ensures i == last.value {
      }
    } else {
      BatchLeaves(tombstoned, updates, id);
    }
  }
}

/** Which memories a sweep moves (crates/rustykrab-memory/src/lifecycle.rs, `sweep`): the rules of
    `Lifecycle` in the columns of the row, and in which direction each of them works. */
module LifecycleRules {
  import opened Options
  import opened MemoryTypes
  import opened Ranking
  import opened Storage
  import opened Lifecycle
  import V = Relevance

  // ---- In the columns of the row -----------------------------------------------------------

  /** `t` is the last access, or the creation when there was none. */
  predicate LastUse(m: Memory, t: int) {
    m.lastAccessed == Some(t) || (m.lastAccessed == None && m.created == t)
  }

  /** Minutes, hours and days in nanoseconds. */
  const A_MINUTE := 60 * 1_000_000_000
  const AN_HOUR := 60 * A_MINUTE
  const A_DAY := 24 * AN_HOUR

  /** A working memory becomes episodic, and is treated as such, when it has not been used for the
      configured minutes. */
  lemma {:induction false} WorkingMoves(r: Rules, m: Memory, used: int)
    requires m.stage.Working? && LastUse(m, used)
    ensures r.Idle(m) <==> used + r.cfg.workingMaxIdleMinutes * A_MINUTE <= r.now
    ensures r.Swept(m).Working? <==> r.now < used + r.cfg.workingMaxIdleMinutes * A_MINUTE
    ensures !r.Swept(m).Working? ==> r.Swept(m) == r.Swept(m.(stage := Episodic))
  {
  }

  /** An episodic memory becomes semantic when it has been accessed often enough and is old enough. */
  lemma {:induction false} EpisodicRises(r: Rules, m: Memory)
    requires m.stage.Episodic?
    ensures r.Swept(m).Semantic?
      <==> r.cfg.promoteMinAccessCount <= m.accessCount && m.created + r.cfg.promoteMinAgeDays * A_DAY <= r.now
  {
  }

  /** Otherwise it is demoted when its decayed importance is below the threshold and it has not been used
      for more than 30 days, that is 721 whole hours; and it goes on to the tombstones at once when it is
      also unimportant and idle enough for that. */
  lemma {:induction false} EpisodicFalls(r: Rules, m: Memory, used: int)
    requires m.stage.Episodic? && LastUse(m, used) && !r.Swept(m).Semantic?
    ensures r.Swept(m).Archival? || r.Swept(m).Tombstone?
      <==> m.Decayed(r.exp, r.now) < r.cfg.archiveScoreThreshold && used + 721 * AN_HOUR <= r.now
    ensures r.Swept(m).Archival? || r.Swept(m).Tombstone? ==>
      (r.Swept(m).Tombstone?
       <==> used + r.cfg.tombstoneIdleDays * A_DAY <= r.now && m.importance < r.cfg.tombstoneImportanceThreshold)
  {
    HoursOf(r.now - used, 721);
  }

  lemma {:induction false} HoursOf(x: int, n: nat)
    requires n > 0
    ensures WholeHours(x) >= n <==> x >= n * AN_HOUR
    ensures WholeHours(x) as real / 24.0 > 30.0 <==> WholeHours(x) >= 721
  {
  }

  /** An archival memory is tombstoned when it has not been used for the configured days and is
      unimportant. */
  lemma {:induction false} ArchivalDies(r: Rules, m: Memory, used: int)
    requires m.stage.Archival? && LastUse(m, used)
    ensures r.Swept(m).Tombstone?
      <==> used + r.cfg.tombstoneIdleDays * A_DAY <= r.now && m.importance < r.cfg.tombstoneImportanceThreshold
    ensures r.Swept(m) in {Archival, Tombstone}
  {
  }

  /** Semantic memories and tombstones stay what they are. */
  lemma {:induction false} OthersStay(r: Rules, m: Memory)
    requires m.stage.Semantic? || m.stage.Tombstone?
    ensures r.Swept(m) == m.stage
  {
  }

  // ---- Each rule has a direction -----------------------------------------------------------

  /** If a sweep tombstones an archival memory, it tombstones every one that is no more important and was
      not used later. */
  lemma {:induction false} RetiringIsMonotone(r: Rules, a: Memory, b: Memory)
    requires a.stage.Archival? && b.stage.Archival? && r.Swept(a).Tombstone?
    requires b.importance <= a.importance && b.LastTouched() <= a.LastTouched()
    ensures r.Swept(b).Tombstone?
  {
  }

  /** If it takes a memory out of the working stage, it takes every one that was not used later. */
  lemma {:induction false} IdlingIsMonotone(r: Rules, a: Memory, b: Memory)
    requires a.stage.Working? && b.stage.Working? && !r.Swept(a).Working?
    requires b.LastTouched() <= a.LastTouched()
    ensures !r.Swept(b).Working?
  {
  }

  /** If it promotes an episodic memory, it promotes every one that is as old and as often accessed. */
  lemma {:induction false} PromotionIsMonotone(r: Rules, a: Memory, b: Memory)
    requires a.stage.Episodic? && b.stage.Episodic? && r.Swept(a).Semantic?
    requires b.created <= a.created && a.accessCount <= b.accessCount
    ensures r.Swept(b).Semantic?
  {
  }

  /** If it demotes an episodic memory, it demotes every unpromoted one that decays as fast, is no more
      important and was not used later. */
  lemma {:induction false} DemotionIsMonotone(r: Rules, a: Memory, b: Memory)
    requires V.IsExp(r.exp) && V.Sane(a) && V.Sane(b)
    requires a.stage.Episodic? && b.stage.Episodic? && !r.Swept(a).Episodic? && !r.Swept(a).Semantic?
    requires !r.Swept(b).Semantic?
    requires b.decayRate == a.decayRate && b.importance <= a.importance && b.LastTouched() <= a.LastTouched()
    ensures !r.Swept(b).Episodic?
  {
    var c := b.(accessCount := a.accessCount);
    assert c.Decayed(r.exp, r.now) == b.Decayed(r.exp, r.now);
    V.DecaysLess(r.exp, c, a, r.now);
    V.HoursGrow(r.now - a.LastTouched(), r.now - b.LastTouched());
  }

  // ---- What is found -----------------------------------------------------------------------

  /** Only these stages are ever found. */
  lemma {:induction false} FoundStages(m: Memory, agent: Id)
    ensures m.Live(agent) <==> m.agent == agent && m.isValid && m.stage !in {Archival, Tombstone}
  {
  }

  /** So a sweep by itself hides a memory exactly when it moves it out of the working and episodic
      stages without promoting it. */
  lemma {:induction false} SweepHidesExactlyWhen(r: Rules, m: Memory, agent: Id)
    requires m.Live(agent)
    ensures !m.(stage := r.Swept(m)).Live(agent) <==> r.Swept(m) in {Archival, Tombstone}
    ensures m.stage.Semantic? ==> m.(stage := r.Swept(m)).Live(agent)
  {
  }

  /** All of it for a whole sweep that runs alone: the valid memories of the agent land where their own
      columns say, and no other row changes. */
  lemma {:induction false} SweepLands(r: Rules, memories: map<Id, Memory>, agent: Id, id: Id, used: int)
    requires id in memories && LastUse(memories[id], used)
    ensures
      var after, m := SweptAll(r, memories, agent), memories[id];
      && after.Keys == memories.Keys && after[id] == m.(stage := after[id].stage)
      && (!(m.agent == agent && m.isValid) ==> after[id] == m)
      && (m.agent == agent && m.isValid ==>
            && (m.stage.Archival? ==>
                  (after[id].stage.Tombstone? <==>
                     used + r.cfg.tombstoneIdleDays * A_DAY <= r.now && m.importance < r.cfg.tombstoneImportanceThreshold))
            && (m.stage.Working? ==>
                  (after[id].stage.Working? <==> r.now < used + r.cfg.workingMaxIdleMinutes * A_MINUTE))
            && (m.stage.Episodic? ==>
                  (after[id].stage.Semantic? <==>
                     r.cfg.promoteMinAccessCount <= m.accessCount && m.created + r.cfg.promoteMinAgeDays * A_DAY <= r.now))
            && (m.stage.Episodic? && !after[id].stage.Semantic? ==>
                  (after[id].stage in {Archival, Tombstone} <==>
                     m.Decayed(r.exp, r.now) < r.cfg.archiveScoreThreshold && used + 721 * AN_HOUR <= r.now)))
  {
    var m := memories[id];
    if m.stage.Archival? {
      ArchivalDies(r, m, used);
    } else if m.stage.Working? {
      WorkingMoves(r, m, used);
    } else if m.stage.Episodic? {
      EpisodicRises(r, m);
      if !r.Swept(m).Semantic? {
        EpisodicFalls(r, m, used);
      }
    }
  }
}

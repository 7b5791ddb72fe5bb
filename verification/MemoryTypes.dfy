/** The records of the memory engine (crates/rustykrab-memory/src/types.rs and config.rs). */
module MemoryTypes {
  import opened Options

  // A UUID.
  type Id = nat

  datatype RetrievalSource = Semantic | Keyword | Graph | Temporal

  datatype Stage = Working | Episodic | Semantic | Archival | Tombstone {
    predicate IsRetrievable() {
      Working? || Episodic? || Semantic?
    }
  }

  // Instants and durations in nanoseconds.
  const HOUR := 3_600_000_000_000
  const MINUTE := 60_000_000_000
  const DAY := 24 * HOUR

  datatype Config = Config(
    candidatesPerArm: nat,
    rrfK: real,
    weightSemantic: real,
    weightKeyword: real,
    weightGraph: real,
    weightTemporal: real,
    archiveScoreThreshold: real,
    promoteMinAccessCount: nat,
    promoteMinAgeDays: nat,
    tombstoneIdleDays: nat,
    tombstoneImportanceThreshold: real,
    workingMaxIdleMinutes: nat,
    dedupAutoMergeThreshold: real,
    dedupDistinctThreshold: real)

  /** The columns the engine reads.  `session` is the session recorded in the metadata. */
  datatype Memory = Memory(
    id: Id,
    agent: Id,
    content: string,
    contentHash: string,
    session: Option<Id>,
    stage: Stage,
    importance: real,
    decayRate: real,
    accessCount: nat,
    lastAccessed: Option<int>,
    created: int,
    isValid: bool,
    invalidatedBy: Option<Id>,
    invalidatedAt: Option<int>)
  {
    function LastTouched(): int {
      if lastAccessed.Some? then lastAccessed.value else created
    }

    /** What every read path of the engine filters on. */
    predicate Live(agent: Id) {
      this.agent == agent && isValid && stage.IsRetrievable()
    }

    function Decayed(exp: real -> real, now: int): real {
      Decay(exp, importance, decayRate, WholeHours(now - LastTouched()))
    }

    /** 2% per access, at most doubling the score. */
    function AccessBoost(): real {
      1.0 + (if accessCount < 50 then accessCount else 50) as real * 0.02
    }

    function EffectiveScore(exp: real -> real, similarity: real, now: int): real {
      Decayed(exp, now) * AccessBoost() * similarity
    }
  }

  /** `importance * exp(-decay_rate * (1 - 0.8 * importance) * idle_hours / 168)`. */
  function Decay(exp: real -> real, importance: real, decayRate: real, idleHours: nat): real {
    var effectiveDecay := decayRate * (1.0 - importance * 0.8);
    importance * exp(0.0 - effectiveDecay * idleHours as real / 168.0)
  }

  /** `num_hours().max(0)`: truncated towards zero, and 0 under clock skew. */
  function WholeHours(duration: int): nat {
    if duration < 0 then 0 else duration / HOUR
  }

  function MemoryId(m: Memory): Id { m.id }
}

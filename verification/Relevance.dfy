/** What decides the order of a recall (crates/rustykrab-memory/src/types.rs, `effective_score`, over
    retrieval.rs): relevance to the query, importance, idleness and accesses, each on its own and in
    the list that is returned. */
module Relevance {
  import opened Options
  import opened MemoryTypes
  import opened Ranking
  import opened Scoring
  import opened Similarity
  import opened Storage
  import opened Retrieval
  import E = Engine

  /** All that is used of the exponential function. */
  ghost predicate IsExp(exp: real -> real) {
    exp(0.0) == 1.0 && forall x, y :: x < y ==> 0.0 < exp(x) < exp(y)
  }

  /** There are such functions: this one does without the number e. */
  function Growth(x: real): real {
    if x >= 0.0 then 1.0 + x else 1.0 / (1.0 - x)
  }

  lemma {:induction false} GrowthIsExp()
    ensures IsExp(Growth)
  {
    forall x: real, y: real | x < y ensures 0.0 < Growth(x) < Growth(y) {
      if x < 0.0 {
        Positive(1.0, 1.0 - x);
        Reciprocal(1.0, 1.0, 1.0 - x);
      }
      if y < 0.0 {
        Reciprocal(1.0, 1.0 - y, 1.0 - x);
      }
    }
  }

  // ---- Products ----------------------------------------------------------------------------

  lemma {:induction false} Product(x: real, y: real)
    requires x >= 0.0 && y >= 0.0
    ensures x * y >= 0.0
    ensures x > 0.0 && y > 0.0 ==> x * y > 0.0
  {
  }

  lemma {:induction false} LargerLeft(a: real, b: real, x: real)
    requires a <= b && 0.0 <= x
    ensures a * x <= b * x
    ensures a < b && 0.0 < x ==> a * x < b * x
  {
    Product(b - a, x);
    assert b * x - a * x == (b - a) * x;
  }

  /** Products grow with both factors. */
  lemma {:induction false} Larger(a: real, b: real, x: real, y: real)
    requires 0.0 <= a <= b && 0.0 <= x <= y
    ensures a * x <= b * y
    ensures a < b && y > 0.0 ==> a * x < b * y
    ensures x < y && b > 0.0 ==> a * x < b * y
  {
    LargerLeft(a, b, y);
    LargerLeft(x, y, a);
    LargerLeft(a, b, x);
    LargerLeft(x, y, b);
  }

  lemma {:induction false} Smaller(x: real, y: real, d: real)
    requires x <= y && d > 0.0
    ensures x / d <= y / d
    ensures x < y ==> x / d < y / d
  {
    assert (y / d - x / d) * d == y - x;
    if y / d < x / d {
      Product(x / d - y / d, d);
    }
  }

  // ---- One memory --------------------------------------------------------------------------

  function Idleness(m: Memory, now: int): int { now - m.LastTouched() }

  /** How fast a memory fades: the more important, the slower. */
  function Fading(m: Memory, now: int): real {
    m.decayRate * (1.0 - m.importance * 0.8) * WholeHours(Idleness(m, now)) as real / 168.0
  }

  lemma {:induction false} DecayIs(exp: real -> real, importance: real, decayRate: real, hours: nat, x: real, y: real)
    requires x == 0.0 - decayRate * (1.0 - importance * 0.8) * hours as real / 168.0
    requires y == Decay(exp, importance, decayRate, hours)
    ensures y == importance * exp(x)
  {
  }

  lemma {:induction false} DecayedIs(exp: real -> real, m: Memory, now: int, x: real)
    requires x == 0.0 - Fading(m, now)
    ensures m.Decayed(exp, now) == m.importance * exp(x)
  {
    DecayIs(exp, m.importance, m.decayRate, WholeHours(Idleness(m, now)), x, m.Decayed(exp, now));
  }

  /** The score in the columns of the row, for a query of this similarity: `last` is the last access,
      or the creation when there was none, and only whole hours since then count. */
  lemma {:induction false} ScoreInColumns(exp: real -> real, m: Memory, similarity: real, now: int, last: int,
        hours: nat, fading: real)
    requires m.lastAccessed == Some(last) || (m.lastAccessed == None && m.created == last)
    requires if now < last then hours == 0 else hours * 3_600_000_000_000 <= now - last < (hours + 1) * 3_600_000_000_000
    requires fading == m.decayRate * (1.0 - m.importance * 0.8) * hours as real / 168.0
    ensures m.EffectiveScore(exp, similarity, now)
      == m.importance * exp(0.0 - fading)
         * (1.0 + (if m.accessCount < 50 then m.accessCount else 50) as real * 0.02) * similarity
  {
    assert m.LastTouched() == last && WholeHours(now - last) == hours;
    DecayIs(exp, m.importance, m.decayRate, hours, 0.0 - fading, m.Decayed(exp, now));
  }

  /** The more relevant, the higher. */
  lemma {:induction false} SimilarityDecides(exp: real -> real, m: Memory, s: real, t: real, now: int)
    requires m.Decayed(exp, now) > 0.0 && s < t
    ensures m.EffectiveScore(exp, s, now) < m.EffectiveScore(exp, t, now)
  {
    var x, boost := m.Decayed(exp, now), m.AccessBoost();
    AccessesBoost(m, m);
    ScoreIs(exp, m, s, now, x, boost);
    ScoreIs(exp, m, t, now, x, boost);
    LastFactor(x, boost, s, t);
  }

  lemma {:induction false} LastFactor(x: real, boost: real, s: real, t: real)
    requires x > 0.0 && boost > 0.0 && s < t
    ensures x * boost * s < x * boost * t
  {
    Product(x, boost);
    LargerLeft(s, t, x * boost);
  }

  /** `b` has been touched no earlier, is at least as important and accessed as often as `a`. */
  predicate AsGood(a: Memory, b: Memory) {
    && a.decayRate == b.decayRate && a.importance <= b.importance
    && a.LastTouched() <= b.LastTouched() && a.accessCount <= b.accessCount
  }

  /** Besides, `b` is more important, or more often accessed below the cap of 50, or has been idle for
      fewer whole hours. */
  predicate Better(a: Memory, b: Memory, now: int) {
    || a.importance < b.importance
    || (a.accessCount < b.accessCount && a.accessCount < 50)
    || (a.decayRate > 0.0 && WholeHours(Idleness(b, now)) < WholeHours(Idleness(a, now)))
  }

  predicate Sane(m: Memory) {
    0.0 < m.importance <= 1.0 && m.decayRate >= 0.0
  }

  lemma {:induction false} HoursGrow(x: int, y: int)
    requires x <= y
    ensures WholeHours(x) <= WholeHours(y)
  {
  }

  lemma {:induction false} FadesLess(a: Memory, b: Memory, now: int)
    requires Sane(a) && Sane(b) && AsGood(a, b)
    ensures Fading(b, now) <= Fading(a, now)
    ensures a.decayRate > 0.0 && WholeHours(Idleness(b, now)) < WholeHours(Idleness(a, now)) ==>
      Fading(b, now) < Fading(a, now)
  {
    var slow, fast := 1.0 - b.importance * 0.8, 1.0 - a.importance * 0.8;
    var short, long := WholeHours(Idleness(b, now)) as real, WholeHours(Idleness(a, now)) as real;
    HoursGrow(Idleness(b, now), Idleness(a, now));
    Larger(a.decayRate, a.decayRate, slow, fast);
    Product(a.decayRate, slow);
    Product(a.decayRate, fast);
    Larger(a.decayRate * slow, a.decayRate * fast, short, long);
    Smaller(a.decayRate * slow * short, a.decayRate * fast * long, 168.0);
  }

  lemma {:induction false} ExpGrows(exp: real -> real, x: real, y: real)
    requires IsExp(exp) && x <= y
    ensures 0.0 < exp(x) <= exp(y)
    ensures x < y ==> exp(x) < exp(y)
  {
    assert exp(x) < exp(x + 1.0);
  }

  lemma {:induction false} DecaysLess(exp: real -> real, a: Memory, b: Memory, now: int)
    requires IsExp(exp) && Sane(a) && Sane(b) && AsGood(a, b)
    ensures 0.0 < a.Decayed(exp, now) <= b.Decayed(exp, now)
    ensures a.importance < b.importance
      || (a.decayRate > 0.0 && WholeHours(Idleness(b, now)) < WholeHours(Idleness(a, now)))
      ==> a.Decayed(exp, now) < b.Decayed(exp, now)
  {
    var x, y := 0.0 - Fading(a, now), 0.0 - Fading(b, now);
    FadesLess(a, b, now);
    ExpGrows(exp, x, y);
    DecayedIs(exp, a, now, x);
    DecayedIs(exp, b, now, y);
    Larger(a.importance, b.importance, exp(x), exp(y));
    Product(a.importance, exp(x));
  }

  /** The boost grows up to 50 accesses. */
  lemma {:induction false} AccessesBoost(a: Memory, b: Memory)
    requires a.accessCount <= b.accessCount
    ensures 1.0 <= a.AccessBoost() <= b.AccessBoost() <= 2.0
    ensures a.accessCount < b.accessCount && a.accessCount < 50 ==> a.AccessBoost() < b.AccessBoost()
  {
  }

  lemma {:induction false} ThreeFactors(x: real, y: real, c: real, d: real, s: real, t: real)
    requires 0.0 < x <= y && 0.0 < c <= d && 0.0 < s <= t
    ensures 0.0 < x * c * s <= y * d * t
    ensures x < y || c < d || s < t ==> x * c * s < y * d * t
  {
    Larger(x, y, c, d);
    Product(x, c);
    Larger(x * c, y * d, s, t);
    Product(x * c, s);
  }

  lemma {:induction false} ScoreIs(exp: real -> real, m: Memory, similarity: real, now: int, x: real, boost: real)
    requires x == m.Decayed(exp, now) && boost == m.AccessBoost()
    ensures m.EffectiveScore(exp, similarity, now) == x * boost * similarity
  {
  }

  /** At least as good in every respect and better in one: the higher score. */
  lemma {:induction false} BetterScoresHigher(exp: real -> real, a: Memory, b: Memory, s: real, t: real, now: int)
    requires IsExp(exp) && Sane(a) && Sane(b) && AsGood(a, b) && 0.0 < s <= t
    requires s < t || Better(a, b, now)
    ensures 0.0 < a.EffectiveScore(exp, s, now) < b.EffectiveScore(exp, t, now)
  {
    AccessesBoost(a, b);
    DecaysLess(exp, a, b, now);
    var x, y, c, d := a.Decayed(exp, now), b.Decayed(exp, now), a.AccessBoost(), b.AccessBoost();
    ThreeFactors(x, y, c, d, s, t);
    ScoreIs(exp, a, s, now, x, c);
    ScoreIs(exp, b, t, now, y, d);
  }

  // ---- In the list -------------------------------------------------------------------------

  /** Wherever `low` stands, `high` stands before it. */
  ghost predicate Ahead(results: seq<Result>, high: Id, low: Id) {
    forall i :: 0 <= i < |results| && results[i].memoryId == low ==>
      exists j :: 0 <= j < i && results[j].memoryId == high
  }

  lemma {:induction false} ResultIsRated(results: seq<Result>, s: Scorer, memories: map<Id, Memory>, fused: seq<Fused>,
        limit: nat, i: nat, a: nat)
    requires s.cfg.rrfK != 0.0 && Promise(results, s, memories, fused, limit) && Distinct(Map(FusedId, fused))
    requires i < |results| && a < |fused| && results[i].memoryId == fused[a].id
    ensures fused[a].id in memories && results[i] == s.Rate(memories[fused[a].id], fused[a])
  {
    assert FromRow(results[i], s, memories, fused);
    var j :| 0 <= j < |fused| && fused[j].id == results[i].memoryId
          && results[i] == s.Rate(memories[results[i].memoryId], fused[j]);
    assert Map(FusedId, fused)[j] == Map(FusedId, fused)[a];
  }

  /** A promise of recall puts what is rated higher first. */
  lemma {:induction false} HigherRatedIsAhead(results: seq<Result>, s: Scorer, memories: map<Id, Memory>,
        fused: seq<Fused>, limit: nat, a: nat, b: nat)
    requires s.cfg.rrfK != 0.0 && Promise(results, s, memories, fused, limit) && Distinct(Map(FusedId, fused))
    requires a < |fused| && b < |fused| && Returnable(memories, fused[a].id) && Returnable(memories, fused[b].id)
    requires s.Rate(memories[fused[a].id], fused[a]).effectiveScore < s.Rate(memories[fused[b].id], fused[b]).effectiveScore
    ensures Ahead(results, fused[b].id, fused[a].id)
  {
    forall i | 0 <= i < |results| && results[i].memoryId == fused[a].id
      ensures exists j :: 0 <= j < i && results[j].memoryId == fused[b].id
    {
      ResultIsRated(results, s, memories, fused, limit, i, a);
      assert fused[b].id in Map(ResultId, results);
      var j :| 0 <= j < |results| && Map(ResultId, results)[j] == fused[b].id;
      ResultIsRated(results, s, memories, fused, limit, j, b);
      assert i < j ==> Effective(results[i]) >= Effective(results[j]);
    }
  }

  /** A configuration that the memory engine is meant for. */
  predicate Weighted(cfg: Config) {
    && cfg.rrfK > 0.0
    && cfg.weightSemantic >= 0.0 && cfg.weightKeyword >= 0.0 && cfg.weightGraph >= 0.0 && cfg.weightTemporal >= 0.0
    && cfg.weightSemantic + cfg.weightKeyword + cfg.weightGraph + cfg.weightTemporal > 0.0
  }

  lemma {:induction false} Positive(x: real, y: real)
    requires x > 0.0 && y > 0.0
    ensures x / y > 0.0
  {
    Smaller(0.0, x, y);
    assert 0.0 / y == 0.0;
  }

  /** Below the clamp the similarity grows with the fused score. */
  lemma {:induction false} NormalizedGrows(s: Scorer, x: real, y: real)
    requires Weighted(s.cfg) && 0.0 < x <= y <= s.Weights() / s.cfg.rrfK
    ensures 0.0 < Normalized(x, s.Weights(), s.cfg.rrfK) <= Normalized(y, s.Weights(), s.cfg.rrfK)
    ensures x < y ==> Normalized(x, s.Weights(), s.cfg.rrfK) < Normalized(y, s.Weights(), s.cfg.rrfK)
  {
    var whole := s.Weights() / s.cfg.rrfK;
    Positive(s.Weights(), s.cfg.rrfK);
    Fraction(x, whole);
    Fraction(y, whole);
    Smaller(x, y, whole);
    Positive(x, whole);
  }

  /** `b` is as good a candidate as `a` in every respect, and better in one. */
  ghost predicate Outranks(s: Scorer, memories: map<Id, Memory>, a: Fused, b: Fused)
    requires s.cfg.rrfK > 0.0
  {
    && Returnable(memories, a.id) && Returnable(memories, b.id)
    && var (m, n) := (memories[a.id], memories[b.id]);
       && Sane(m) && Sane(n) && AsGood(m, n)
       && 0.0 < a.score <= b.score <= s.Weights() / s.cfg.rrfK
       && (a.score < b.score || Better(m, n, s.now))
  }

  /** Of two candidates of a recall, the better one stands first: relevance decides between equals, and
      so do importance, idleness and accesses. */
  lemma {:induction false} BetterIsAhead(results: seq<Result>, s: Scorer, memories: map<Id, Memory>, fused: seq<Fused>,
        limit: nat, a: nat, b: nat)
    requires Weighted(s.cfg) && IsExp(s.exp)
    requires Promise(results, s, memories, fused, limit) && Distinct(Map(FusedId, fused))
    requires a < |fused| && b < |fused| && Outranks(s, memories, fused[a], fused[b])
    ensures Ahead(results, fused[b].id, fused[a].id)
  {
    var m, n := memories[fused[a].id], memories[fused[b].id];
    NormalizedGrows(s, fused[a].score, fused[b].score);
    BetterScoresHigher(s.exp, m, n, Normalized(fused[a].score, s.Weights(), s.cfg.rrfK),
                       Normalized(fused[b].score, s.Weights(), s.cfg.rrfK), s.now);
    HigherRatedIsAhead(results, s, memories, fused, limit, a, b);
  }

  // ---- What makes a memory relevant --------------------------------------------------------

  /** `p` is where `ids` lists `id`, if it does. */
  predicate StandsAt(ids: seq<Id>, id: Id, p: Option<nat>) {
    match p
    case Some(i) => i < |ids| && ids[i] == id
    case None => id !in ids
  }

  /** What a place in an arm is worth: the arm's weight over `k` plus the number of places before it. */
  function Gain(weight: real, k: real, p: Option<nat>): real
    requires k > 0.0
  {
    match p
    case Some(i) => weight / (k + i as real)
    case None => 0.0
  }

  lemma {:induction false} ArmGain(ids: seq<Id>, weight: real, k: real, id: Id, p: Option<nat>)
    requires k > 0.0 && Distinct(ids) && StandsAt(ids, id, p) && Divisible(Ranked(ids), k)
    ensures ListScore(Ranked(ids), weight, k, id) == Gain(weight, k, p)
    decreases |ids|
  {
    if ids != [] {
      var n := |ids| - 1;
      var front := ids[..n];
      assert Ranked(ids)[..n] == Ranked(front);
      if p == Some(n) {
        ArmGain(front, weight, k, id, None);
      } else {
        ArmGain(front, weight, k, id, p);
      }
    }
  }

  /** The places of a memory in the four arms. */
  datatype Places = Places(semantic: Option<nat>, keyword: Option<nat>, graph: Option<nat>, temporal: Option<nat>)

  /** The fused score, arm by arm. */
  function Worth(cfg: Config, p: Places): real
    requires cfg.rrfK > 0.0
  {
    Gain(cfg.weightSemantic, cfg.rrfK, p.semantic) + Gain(cfg.weightKeyword, cfg.rrfK, p.keyword)
    + Gain(cfg.weightGraph, cfg.rrfK, p.graph) + Gain(cfg.weightTemporal, cfg.rrfK, p.temporal)
  }

  ghost predicate StandAt(semantic: seq<Id>, keyword: seq<Id>, graph: seq<Id>, temporal: seq<Id>, id: Id, p: Places) {
    && Distinct(semantic) && Distinct(keyword) && Distinct(graph) && Distinct(temporal)
    && StandsAt(semantic, id, p.semantic) && StandsAt(keyword, id, p.keyword)
    && StandsAt(graph, id, p.graph) && StandsAt(temporal, id, p.temporal)
  }

  lemma {:induction false} FourScores(lists: seq<WeightedList>, k: real, id: Id)
    requires |lists| == 4 && AllDivisible(lists, k)
    ensures Score(lists, k, id)
      == ListScore(lists[0].items, lists[0].weight, k, id) + ListScore(lists[1].items, lists[1].weight, k, id)
         + ListScore(lists[2].items, lists[2].weight, k, id) + ListScore(lists[3].items, lists[3].weight, k, id)
  {
    var three, two, one := lists[..3], lists[..2], lists[..1];
    assert three[..2] == two && two[..1] == one && one[..0] == [];
    assert Score(one, k, id) == ListScore(lists[0].items, lists[0].weight, k, id);
    assert Score(two, k, id) == Score(one, k, id) + ListScore(lists[1].items, lists[1].weight, k, id);
    assert Score(three, k, id) == Score(two, k, id) + ListScore(lists[2].items, lists[2].weight, k, id);
  }

  /** What `recall` fuses is what each arm gives for the place in it. */
  lemma {:induction false} ScoreIsWorth(cfg: Config, semantic: seq<Id>, keyword: seq<Id>, graph: seq<Id>,
        temporal: seq<Id>, id: Id, p: Places)
    requires cfg.rrfK > 0.0 && StandAt(semantic, keyword, graph, temporal, id, p)
    ensures
      var lists := Bare(ListsOf(cfg, Ranked(semantic), Ranked(keyword), Ranked(graph), Ranked(temporal)));
      AllDivisible(lists, cfg.rrfK) && Score(lists, cfg.rrfK, id) == Worth(cfg, p)
  {
    var k := cfg.rrfK;
    var lists := Bare(ListsOf(cfg, Ranked(semantic), Ranked(keyword), Ranked(graph), Ranked(temporal)));
    AlwaysDivisible(lists, k);
    FourScores(lists, k, id);
    assert forall i :: 0 <= i < 4 ==> Divisible(lists[i].items, k);
    ArmGain(semantic, cfg.weightSemantic, k, id, p.semantic);
    ArmGain(keyword, cfg.weightKeyword, k, id, p.keyword);
    ArmGain(graph, cfg.weightGraph, k, id, p.graph);
    ArmGain(temporal, cfg.weightTemporal, k, id, p.temporal);
  }

  /** No later place, any place being better than none. */
  predicate NoLater(p: Option<nat>, q: Option<nat>) {
    q.Some? ==> p.Some? && p.value <= q.value
  }

  lemma {:induction false} EarlierGainsMore(weight: real, k: real, p: Option<nat>, q: Option<nat>)
    requires k > 0.0 && weight >= 0.0 && NoLater(p, q)
    ensures Gain(weight, k, q) <= Gain(weight, k, p)
    ensures weight > 0.0 && p != q ==> Gain(weight, k, q) < Gain(weight, k, p)
  {
    if p.Some? {
      var d := k + p.value as real;
      assert weight / d >= 0.0 by { Smaller(0.0, weight, d); }
      if weight > 0.0 {
        Positive(weight, d);
      }
      if q.Some? {
        Reciprocal(weight, d, k + q.value as real);
      }
    }
  }

  lemma {:induction false} Reciprocal(weight: real, d: real, e: real)
    requires weight >= 0.0 && 0.0 < d <= e
    ensures weight / e <= weight / d
    ensures weight > 0.0 && d < e ==> weight / e < weight / d
  {
    var x, y := weight / d, weight / e;
    assert x * d == weight && y * e == weight;
    Smaller(0.0, weight, d);
    if weight > 0.0 {
      Positive(weight, d);
    }
    if y > x || (y == x && x > 0.0 && d < e) {
      Larger(x, y, d, e);
    }
  }

  predicate NoLaterAnywhere(p: Places, q: Places) {
    && NoLater(p.semantic, q.semantic) && NoLater(p.keyword, q.keyword)
    && NoLater(p.graph, q.graph) && NoLater(p.temporal, q.temporal)
  }

  predicate EarlierSomewhere(cfg: Config, p: Places, q: Places) {
    || (cfg.weightSemantic > 0.0 && p.semantic != q.semantic) || (cfg.weightKeyword > 0.0 && p.keyword != q.keyword)
    || (cfg.weightGraph > 0.0 && p.graph != q.graph) || (cfg.weightTemporal > 0.0 && p.temporal != q.temporal)
  }

  /** Listed no later by every arm, and earlier by one that has weight: the higher fused score. */
  lemma {:induction false} EarlierIsWorthMore(cfg: Config, p: Places, q: Places)
    requires Weighted(cfg) && NoLaterAnywhere(p, q)
    ensures Worth(cfg, q) <= Worth(cfg, p)
    ensures EarlierSomewhere(cfg, p, q) ==> Worth(cfg, q) < Worth(cfg, p)
  {
    EarlierGainsMore(cfg.weightSemantic, cfg.rrfK, p.semantic, q.semantic);
    EarlierGainsMore(cfg.weightKeyword, cfg.rrfK, p.keyword, q.keyword);
    EarlierGainsMore(cfg.weightGraph, cfg.rrfK, p.graph, q.graph);
    EarlierGainsMore(cfg.weightTemporal, cfg.rrfK, p.temporal, q.temporal);
  }

  // ---- In a recall -------------------------------------------------------------------------

  /** The four arms of a search, as the identifiers they list. */
  datatype Lineup = Lineup(semantic: seq<Id>, keyword: seq<Id>, graph: seq<Id>, temporal: seq<Id>)

  function Arms4(t: Fetched, cfg: Config, sqrt: real -> real, query: Query): Lineup
    requires |t.links| == |t.Seeds(sqrt, query.embedding)|
  {
    Lineup(RankedIds(t.Semantic(sqrt, query.embedding, cfg.candidatesPerArm)), t.hits,
           RankedIds(t.Graph(sqrt, query.embedding, cfg.candidatesPerArm)), Map(MemoryId, t.recent))
  }

  ghost predicate Places4(l: Lineup, id: Id, p: Places) {
    StandAt(l.semantic, l.keyword, l.graph, l.temporal, id, p)
  }

  lemma {:induction false} RankedAgain(ids: seq<Id>)
    ensures RankedIds(Ranked(ids)) == ids
  {
  }

  /** Every arm lists memories of the agent, none twice. */
  ghost predicate ArmsOwned(memories: map<Id, Memory>, agent: Id, semantic: Ranks, keyword: Ranks, graph: Ranks,
                            temporal: Ranks) {
    && ArmOwned(memories, agent, semantic) && ArmOwned(memories, agent, keyword)
    && ArmOwned(memories, agent, graph) && ArmOwned(memories, agent, temporal)
  }

  lemma {:induction false} SearchedArmsAreOwned(db: Db, cfg: Config, sqrt: real -> real, query: Query, agent: Id,
        now: int, t: Fetched, fused: seq<Fused>)
    requires NoZero(cfg.rrfK) && Consistent(db) && Searched(db, cfg, sqrt, query, agent, now, t, fused)
    ensures ArmsOwned(db.memories, agent, t.Semantic(sqrt, query.embedding, cfg.candidatesPerArm), Ranked(t.hits),
                      t.Graph(sqrt, query.embedding, cfg.candidatesPerArm), Ranked(Map(MemoryId, t.recent)))
  {
    var limit, seeds := cfg.candidatesPerArm, t.Seeds(sqrt, query.embedding);
    SemanticArmIsOwned(db.memories, agent, sqrt, query.embedding, t.chunks, limit);
    KeywordArmIsOwned(db, agent, t.hits, limit);
    NearestIsOwned(db.memories, agent, sqrt, query.embedding, t.chunks, SEEDS);
    AddSeedsIsOwned(db, agent, seeds, t.links);
    GraphArmIsOwned(db.memories, agent, AddSeeds(NOTHING, seeds, t.links), limit);
    TemporalArmIsOwned(db.memories, agent, t.recent, now - WINDOW, now, limit);
  }

  lemma {:induction false} ArmsAreDistinct(db: Db, cfg: Config, sqrt: real -> real, query: Query, agent: Id, now: int,
        t: Fetched, fused: seq<Fused>)
    requires NoZero(cfg.rrfK) && Consistent(db) && Searched(db, cfg, sqrt, query, agent, now, t, fused)
    ensures
      var l := Arms4(t, cfg, sqrt, query);
      && Distinct(l.semantic) && Distinct(l.keyword) && Distinct(l.graph) && Distinct(l.temporal)
      && Ranked(l.semantic) == t.Semantic(sqrt, query.embedding, cfg.candidatesPerArm)
      && Ranked(l.graph) == t.Graph(sqrt, query.embedding, cfg.candidatesPerArm)
  {
    SearchedArmsAreOwned(db, cfg, sqrt, query, agent, now, t, fused);
    RankedAgain(t.hits);
    RankedAgain(Map(MemoryId, t.recent));
  }

  /** In what a recall searched, a candidate's fused score is what its places in the arms are worth. */
  lemma {:induction false} CandidateIsWorth(db: Db, cfg: Config, sqrt: real -> real, query: Query, agent: Id, now: int,
        t: Fetched, fused: seq<Fused>, a: nat, p: Places)
    requires Weighted(cfg) && Consistent(db) && Searched(db, cfg, sqrt, query, agent, now, t, fused)
    requires a < |fused| && Places4(Arms4(t, cfg, sqrt, query), fused[a].id, p)
    ensures fused[a].score == Worth(cfg, p)
  {
    var l := Arms4(t, cfg, sqrt, query);
    ArmsAreDistinct(db, cfg, sqrt, query, agent, now, t, fused);
    ScoreIsWorth(cfg, l.semantic, l.keyword, l.graph, l.temporal, fused[a].id, p);
    assert Erased(fused)[a].score == fused[a].score;
  }

  lemma {:induction false} CandidateIsInRange(db: Db, s: Scorer, sqrt: real -> real, query: Query, agent: Id, now: int,
        t: Fetched, fused: seq<Fused>, a: nat)
    requires Weighted(s.cfg) && Consistent(db) && Searched(db, s.cfg, sqrt, query, agent, now, t, fused) && a < |fused|
    ensures fused[a].score <= s.Weights() / s.cfg.rrfK
  {
    var limit := s.cfg.candidatesPerArm;
    SearchedArmsAreOwned(db, s.cfg, sqrt, query, agent, now, t, fused);
    FusedIsInRange(db.memories, agent, s, t.Semantic(sqrt, query.embedding, limit), Ranked(t.hits),
                   t.Graph(sqrt, query.embedding, limit), Ranked(Map(MemoryId, t.recent)), fused, a);
  }

  lemma {:induction false} FusedIsInRange(memories: map<Id, Memory>, agent: Id, s: Scorer, semantic: Ranks,
        keyword: Ranks, graph: Ranks, temporal: Ranks, fused: seq<Fused>, a: nat)
    requires Weighted(s.cfg) && ArmsOwned(memories, agent, semantic, keyword, graph, temporal) && a < |fused|
    requires
      var lists := Bare(ListsOf(s.cfg, semantic, keyword, graph, temporal));
      AllDivisible(lists, s.cfg.rrfK) && IsFusion(Erased(fused), lists, s.cfg.rrfK)
    ensures fused[a].score <= s.Weights() / s.cfg.rrfK
  {
    RecallNeverClamps(memories, agent, s.cfg, semantic, keyword, graph, temporal, fused[a].id);
    assert Erased(fused)[a].score == fused[a].score;
  }

  /** A whole recall: of two candidates, the one that no arm lists later and that is as important, as
      fresh and as often used stands first, if some arm that counts lists it earlier or it is better in
      one of the others. */
  lemma {:induction false} RecallFavoursTheBetter(db: Db, s: Scorer, sqrt: real -> real, query: Query, agent: Id,
        searched: int, t: Fetched, fused: seq<Fused>, results: seq<Result>, limit: nat, a: nat, b: nat, p: Places, q: Places)
    requires Weighted(s.cfg) && IsExp(s.exp) && Consistent(db)
    requires Searched(db, s.cfg, sqrt, query, agent, searched, t, fused)
    requires Promise(results, s, db.memories, fused, limit)
    requires a < |fused| && Returnable(db.memories, fused[a].id) && Places4(Arms4(t, s.cfg, sqrt, query), fused[a].id, p)
    requires b < |fused| && Returnable(db.memories, fused[b].id) && Places4(Arms4(t, s.cfg, sqrt, query), fused[b].id, q)
    requires
      var m, n := db.memories[fused[a].id], db.memories[fused[b].id];
      && Sane(m) && Sane(n) && AsGood(m, n) && NoLaterAnywhere(q, p)
      && (EarlierSomewhere(s.cfg, q, p) || Better(m, n, s.now))
    requires Worth(s.cfg, p) > 0.0
    ensures Ahead(results, fused[b].id, fused[a].id)
  {
    CandidateIsWorth(db, s.cfg, sqrt, query, agent, searched, t, fused, a, p);
    CandidateIsWorth(db, s.cfg, sqrt, query, agent, searched, t, fused, b, q);
    CandidateIsInRange(db, s, sqrt, query, agent, searched, t, fused, b);
    EarlierIsWorthMore(s.cfg, q, p);
    SearchIsOwned(db, s.cfg, sqrt, query, agent, searched, t, fused);
    BetterIsAhead(results, s, db.memories, fused, limit, a, b);
  }

  /** The same in every interleaving, among the candidates of the state the recall fetched in. */
  lemma {:induction false} RunFavoursTheBetter(env: E.Env, run: seq<E.State>, k: nat, i: nat)
    returns (read: nat, now: int, fused: seq<Fused>)
    requires Weighted(env.cfg) && IsExp(env.exp) && E.Run(env, run) && k < |run| && i < |run[k].tasks|
    requires run[k].tasks[i].Returned?
    ensures read < k && i < |run[read].tasks| && run[read].tasks[i] == E.Fetching(run[k].tasks[i].call, fused)
    ensures
      var s, memories := Scorer(env.cfg, env.exp, now), run[read].db.memories;
      forall a, b :: 0 <= a < |fused| && 0 <= b < |fused| && Outranks(s, memories, fused[a], fused[b]) ==>
        Ahead(run[k].tasks[i].results, fused[b].id, fused[a].id)
  {
    read, now, fused := E.RecallIsSound(env, run, k, i);
    E.FetchedIsDistinct(env, run, read, i);
    var s := Scorer(env.cfg, env.exp, now);
    forall a, b | 0 <= a < |fused| && 0 <= b < |fused| && Outranks(s, run[read].db.memories, fused[a], fused[b])
      ensures Ahead(run[k].tasks[i].results, fused[b].id, fused[a].id)
    {
      BetterIsAhead(run[k].tasks[i].results, s, run[read].db.memories, fused, run[k].tasks[i].call.limit, a, b);
    }
  }
}

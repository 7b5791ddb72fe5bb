/** Listing memories by creation time (`list_by_time_range`, crates/rustykrab-memory/src/storage.rs).

    `Storage` and the engine compare instants; the query compares stored RFC 3339 texts.  For years
    of four digits the two select, order and cut off the same. */
module CreationTimes {
  import opened MemoryTypes
  import opened Ranking
  import opened Storage
  import T = Timestamps

  /** In a year of four digits, counted as `Timestamps` counts. */
  predicate FourDigits(t: int) {
    0 <= t && T.InRange(t)
  }

  function CreatedText(m: Memory): string
    requires FourDigits(m.created)
  {
    T.Rfc3339(m.created)
  }

  /** `created_at >= from AND created_at <= to`, on the texts. */
  function InTextRange(agent: Id, from: string, to: string): Memory -> bool {
    (m: Memory) =>
      m.Live(agent) && FourDigits(m.created) && !T.TextLess(CreatedText(m), from) && !T.TextLess(to, CreatedText(m))
  }

  /** `ORDER BY created_at DESC`, equal texts in any order. */
  ghost predicate TextDescending(rows: seq<Memory>)
    requires AllOf(rows, (m: Memory) => FourDigits(m.created))
  {
    forall i, j :: 0 <= i < j < |rows| ==> !T.TextLess(CreatedText(rows[i]), CreatedText(rows[j]))
  }

  /** What the query returns. */
  ghost predicate RecentByText(rows: seq<Memory>, memories: map<Id, Memory>, agent: Id,
                               from: string, to: string, limit: nat)
  {
    exists all :: Listing(all, memories, InTextRange(agent, from, to), MemoryId) && IsNewest(rows, all, limit)
  }

  /** The first `limit` of the sorted rows. */
  ghost predicate IsNewest(rows: seq<Memory>, all: seq<Memory>, limit: nat) {
    && AllOf(all, (m: Memory) => FourDigits(m.created))
    && TextDescending(all) && rows == Truncated(all, limit)
  }

  ghost predicate AllFourDigits(memories: map<Id, Memory>) {
    forall id :: id in memories ==> FourDigits(memories[id].created)
  }

  lemma {:induction false} SameRange(m: Memory, agent: Id, from: int, to: int)
    requires FourDigits(m.created) && FourDigits(from) && FourDigits(to)
    ensures InTextRange(agent, T.Rfc3339(from), T.Rfc3339(to))(m) <==> InRange(agent, from, to)(m)
  {
    T.TextOrderIsTimeOrder(m.created, from);
    T.TextOrderIsTimeOrder(to, m.created);
  }

  lemma {:induction false} SameListing(all: seq<Memory>, memories: map<Id, Memory>, agent: Id, from: int, to: int)
    requires AllFourDigits(memories) && FourDigits(from) && FourDigits(to)
    ensures Listing(all, memories, InTextRange(agent, T.Rfc3339(from), T.Rfc3339(to)), MemoryId)
      <==> Listing(all, memories, InRange(agent, from, to), MemoryId)
  {
    forall id | id in memories
      ensures InTextRange(agent, T.Rfc3339(from), T.Rfc3339(to))(memories[id]) <==> InRange(agent, from, to)(memories[id])
    {
      SameRange(memories[id], agent, from, to);
    }
  }

  lemma {:induction false} SameOrder(all: seq<Memory>)
    requires AllOf(all, (m: Memory) => FourDigits(m.created))
    ensures TextDescending(all) <==> Descending(all, Created)
  {
    forall i, j | 0 <= i < j < |all|
      ensures !T.TextLess(CreatedText(all[i]), CreatedText(all[j])) <==> Created(all[i]) >= Created(all[j])
    {
      T.TextOrderIsTimeOrder(all[i].created, all[j].created);
    }
  }

  lemma {:induction false} ListedFourDigits(all: seq<Memory>, memories: map<Id, Memory>, p: Memory -> bool)
    requires AllFourDigits(memories) && Listing(all, memories, p, MemoryId)
    ensures AllOf(all, (m: Memory) => FourDigits(m.created))
  {
    forall i | 0 <= i < |all| ensures FourDigits(all[i].created) {
      assert memories[MemoryId(all[i])] == all[i];
    }
  }

  lemma {:induction false} SortedStays<X>(xs: seq<X>, key: X -> real)
    requires Descending(xs, key)
    ensures SortDesc(xs, key) == xs
  {
    if xs != [] {
      SortedStays(xs[1..], key);
      assert xs == [xs[0]] + xs[1..];
    }
  }

  lemma {:induction false} TimeIsText(rows: seq<Memory>, all: seq<Memory>, memories: map<Id, Memory>, agent: Id,
        from: int, to: int, limit: nat)
    requires AllFourDigits(memories) && FourDigits(from) && FourDigits(to)
    requires Listing(all, memories, InRange(agent, from, to), MemoryId)
    requires rows == Truncated(SortDesc(all, Created), limit)
    ensures RecentByText(rows, memories, agent, T.Rfc3339(from), T.Rfc3339(to), limit)
  {
    var sorted := SortDesc(all, Created);
    SortedListing(all, memories, InRange(agent, from, to), MemoryId, Created);
    SameListing(sorted, memories, agent, from, to);
    ListedFourDigits(sorted, memories, InRange(agent, from, to));
    SameOrder(sorted);
    assert IsNewest(rows, sorted, limit);
  }

  lemma {:induction false} TextIsTime(rows: seq<Memory>, all: seq<Memory>, memories: map<Id, Memory>, agent: Id,
        from: int, to: int, limit: nat)
    requires AllFourDigits(memories) && FourDigits(from) && FourDigits(to)
    requires Listing(all, memories, InTextRange(agent, T.Rfc3339(from), T.Rfc3339(to)), MemoryId)
    requires IsNewest(rows, all, limit)
    ensures Recent(rows, memories, agent, from, to, limit)
  {
    SameListing(all, memories, agent, from, to);
    SameOrder(all);
    SortedStays(all, Created);
  }

  /** Comparing the texts selects, orders and cuts off exactly as comparing the instants. */
  lemma {:induction false} RecentIsRecentByText(rows: seq<Memory>, memories: map<Id, Memory>, agent: Id,
        from: int, to: int, limit: nat)
    requires AllFourDigits(memories) && FourDigits(from) && FourDigits(to)
    ensures Recent(rows, memories, agent, from, to, limit)
      <==> RecentByText(rows, memories, agent, T.Rfc3339(from), T.Rfc3339(to), limit)
  {
    if Recent(rows, memories, agent, from, to, limit) {
      var all :| Listing(all, memories, InRange(agent, from, to), MemoryId)
        && rows == Truncated(SortDesc(all, Created), limit);
      TimeIsText(rows, all, memories, agent, from, to, limit);
    }
    if RecentByText(rows, memories, agent, T.Rfc3339(from), T.Rfc3339(to), limit) {
      var all :| Listing(all, memories, InTextRange(agent, T.Rfc3339(from), T.Rfc3339(to)), MemoryId)
        && IsNewest(rows, all, limit);
      TextIsTime(rows, all, memories, agent, from, to, limit);
    }
  }
}

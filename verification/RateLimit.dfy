/** The gateway's per-IP rate limiter (crates/rustykrab-gateway/src/rate_limit.rs).

    The limiter is a class over a map of records, as in the source.  Its one operation is
    proved against the pure step `CheckStep`; the properties of whole runs are then lemmas
    about `CheckStep`: evicting stale records cannot be observed, addresses do not influence
    each other, and the number of admitted requests in a window is bounded exactly when the
    lockout is at least as long as the window. */
module RateLimit {

  import opened Options

  type Ip = nat

  // Instants and durations are counted in one unit; a `std::time::Duration` is never negative.
  datatype Config = Config(maxRequests: nat, window: nat, lockout: nat)

  datatype IpRecord = IpRecord(attempts: seq<int>, lockedUntil: Option<int>)

  type Records = map<Ip, IpRecord>

  const FRESH := IpRecord([], None)

  // ---- One address -----------------------------------------------------------------------

  /** `Vec::retain(|t| *t > cutoff)`. */
  function Recent(times: seq<int>, cutoff: int): (r: seq<int>)
    ensures |r| <= |times|
  {
    if times == [] then []
    else (if cutoff < times[0] then [times[0]] else []) + Recent(times[1..], cutoff)
  }

  /** What one request does to the record of its own address. */
  function IpStep(cfg: Config, rec: IpRecord, now: int): (IpRecord, bool)
  {
    if rec.lockedUntil.Some? && now < rec.lockedUntil.value then (rec, false)
    else
      var kept := if rec.lockedUntil.Some? then [] else Recent(rec.attempts, now - cfg.window);
      if |kept| >= cfg.maxRequests
      then (IpRecord(kept, Some(now + cfg.lockout)), false)
      else (IpRecord(kept + [now], None), true)
  }

  // ---- All addresses, with eviction ------------------------------------------------------

  const EVICTION_SIZE := 1_000
  const SCAN_LIMIT := 512
  const EVICTION_LIMIT := 256

  predicate Stale(cfg: Config, rec: IpRecord, now: int)
  {
    && (rec.lockedUntil.Some? ==> rec.lockedUntil.value <= now)
    && (rec.attempts != [] ==> rec.attempts[|rec.attempts| - 1] <= now - 2 * cfg.window)
  }

  function Take<T>(xs: seq<T>, n: nat): seq<T> {
    if |xs| <= n then xs else xs[..n]
  }

  function StaleAmong(cfg: Config, records: Records, keys: seq<Ip>, now: int): (r: seq<Ip>)
    ensures forall k <- r :: k in records && Stale(cfg, records[k], now)
  {
    if keys == [] then []
    else
      (if keys[0] in records && Stale(cfg, records[keys[0]], now) then [keys[0]] else [])
      + StaleAmong(cfg, records, keys[1..], now)
  }

  /** The addresses evicted when the map's iteration order is `order`. */
  function Victims(cfg: Config, records: Records, order: seq<Ip>, now: int): seq<Ip>
  {
    if |records| <= EVICTION_SIZE then []
    else Take(StaleAmong(cfg, records, Take(order, SCAN_LIMIT), now), EVICTION_LIMIT)
  }

  function Without(records: Records, keys: seq<Ip>): Records {
    map k | k in records && k !in keys :: records[k]
  }

  function CheckStep(cfg: Config, records: Records, ip: Ip, now: int, order: seq<Ip>): (Records, bool)
  {
    var (rec, allowed) := IpStep(cfg, if ip in records then records[ip] else FRESH, now);
    var updated := records[ip := rec];
    (if allowed then Without(updated, Victims(cfg, updated, order, now)) else updated, allowed)
  }

  class RateLimiter {
    const cfg: Config
    var records: Records

    constructor (cfg: Config)
      ensures this.cfg == cfg && records == map[]
    {
      this.cfg := cfg;
      records := map[];
    }

    /** `order` is the order in which the hash map happens to iterate. */
    method Check(ip: Ip, now: int, order: seq<Ip>) returns (allowed: bool)
      modifies this`records
      ensures (records, allowed) == CheckStep(cfg, old(records), ip, now, order)
    {
      var record := if ip in records then records[ip] else FRESH;
      records := records[ip := record];
      if record.lockedUntil.Some? {
        if now < record.lockedUntil.value {
          return false;
        }
        record := IpRecord([], None);
      }
      record := record.(attempts := Recent(record.attempts, now - cfg.window));
      if |record.attempts| >= cfg.maxRequests {
        record := record.(lockedUntil := Some(now + cfg.lockout));
        records := records[ip := record];
        assert records == old(records)[ip := record];
        return false;
      }
      record := record.(attempts := record.attempts + [now]);
      records := records[ip := record];
      assert records == old(records)[ip := record];
      EvictStale(now, order);
      allowed := true;
    }

    /** The last part of `Check`: a bounded scan for stale records once the map is large. */
    method EvictStale(now: int, order: seq<Ip>)
      modifies this`records
      ensures records == Without(old(records), Victims(cfg, old(records), order, now))
    {
      if |records| > EVICTION_SIZE {
        var staleKeys := Take(StaleAmong(cfg, records, Take(order, SCAN_LIMIT), now), EVICTION_LIMIT);
        var i := 0;
        while i < |staleKeys|
          invariant 0 <= i <= |staleKeys|
          invariant records == Without(old(records), staleKeys[..i])
        {
          WithoutOneMore(old(records), staleKeys, i);
          records := records - {staleKeys[i]};
          i := i + 1;
        }
        assert staleKeys[..i] == staleKeys;
      } else {
        assert records == Without(old(records), []);
      }
    }
  }

  lemma {:induction false} WithoutOneMore(records: Records, keys: seq<Ip>, i: nat)
    requires i < |keys|
    ensures Without(records, keys[..i]) - {keys[i]} == Without(records, keys[..i + 1])
  {
    assert keys[..i + 1] == keys[..i] + [keys[i]];
  }

  // ---- Runs --------------------------------------------------------------------------------

  datatype Event = Event(ip: Ip, now: int, order: seq<Ip>)

  predicate Monotone(events: seq<Event>) {
    forall i, j | 0 <= i <= j < |events| :: events[i].now <= events[j].now
  }

  function Run(cfg: Config, records: Records, events: seq<Event>): (r: seq<bool>)
    ensures |r| == |events|
    decreases |events|
  {
    if events == [] then []
    else
      var (next, allowed) := CheckStep(cfg, records, events[0].ip, events[0].now, events[0].order);
      [allowed] + Run(cfg, next, events[1..])
  }

  /** The requests of one address, as the times at which they come. */
  function TimesOf(events: seq<Event>, ip: Ip): seq<int> {
    if events == [] then []
    else (if events[0].ip == ip then [events[0].now] else []) + TimesOf(events[1..], ip)
  }

  function DecisionsFor(events: seq<Event>, decisions: seq<bool>, ip: Ip): (r: seq<bool>)
    requires |decisions| == |events|
    ensures |r| == |TimesOf(events, ip)|
  {
    if events == [] then []
    else (if events[0].ip == ip then [decisions[0]] else []) + DecisionsFor(events[1..], decisions[1..], ip)
  }

  /** A limiter that serves one address only and evicts nothing. */
  function IpRun(cfg: Config, rec: IpRecord, times: seq<int>): (r: seq<bool>)
    ensures |r| == |times|
    decreases |times|
  {
    if times == [] then []
    else
      var (next, allowed) := IpStep(cfg, rec, times[0]);
      [allowed] + IpRun(cfg, next, times[1..])
  }

  /** A record that no later request can tell from a fresh one. */
  predicate Dead(cfg: Config, rec: IpRecord, now: int) {
    && (rec.lockedUntil.Some? ==> rec.lockedUntil.value <= now)
    && NoneAfter(rec.attempts, now - cfg.window)
  }

  predicate NoneAfter(times: seq<int>, bound: int) {
    forall i | 0 <= i < |times| :: times[i] <= bound
  }

  predicate AllAfter(times: seq<int>, bound: int) {
    forall i | 0 <= i < |times| :: bound < times[i]
  }

  predicate Ordered(times: seq<int>) {
    forall i, j | 0 <= i <= j < |times| :: times[i] <= times[j]
  }

  /** Attempts are kept in the order they came, none of them later than `now`. */
  predicate RecordValid(rec: IpRecord, now: int) {
    Ordered(rec.attempts) && NoneAfter(rec.attempts, now)
  }

  predicate AllValid(records: Records, now: int) {
    forall k <- records :: RecordValid(records[k], now)
  }

  lemma {:induction false} RecentOrdered(times: seq<int>, cutoff: int)
    requires Ordered(times)
    ensures Ordered(Recent(times, cutoff)) && AllAfter(Recent(times, cutoff), cutoff)
    ensures times != [] ==> AllAfter(Recent(times, cutoff), times[0] - 1)
  {
    if times != [] {
      RecentOrdered(times[1..], cutoff);
      assert times[1..] != [] ==> times[0] <= times[1..][0];
    }
  }

  lemma {:induction false} RecentNoneAfter(times: seq<int>, cutoff: int, bound: int)
    requires NoneAfter(times, bound)
    ensures NoneAfter(Recent(times, cutoff), bound)
  {
    if times != [] {
      RecentNoneAfter(times[1..], cutoff, bound);
    }
  }

  lemma {:induction false} RecentNone(times: seq<int>, cutoff: int)
    requires NoneAfter(times, cutoff)
    ensures Recent(times, cutoff) == []
  {
    if times != [] {
      RecentNone(times[1..], cutoff);
    }
  }

  lemma {:induction false} IpStepValid(cfg: Config, rec: IpRecord, last: int, now: int)
    requires RecordValid(rec, last) && last <= now
    ensures RecordValid(IpStep(cfg, rec, now).0, now)
  {
    var kept := Recent(rec.attempts, now - cfg.window);
    RecentOrdered(rec.attempts, now - cfg.window);
    RecentNoneAfter(rec.attempts, now - cfg.window, last);
    OneMoreValid(kept, now);
    OneMoreValid([], now);
  }

  lemma {:induction false} OneMoreValid(times: seq<int>, now: int)
    requires Ordered(times) && NoneAfter(times, now)
    ensures Ordered(times + [now]) && NoneAfter(times + [now], now)
  {
  }

  lemma {:induction false} DeadIsFresh(cfg: Config, rec: IpRecord, now: int)
    requires Dead(cfg, rec, now)
    ensures IpStep(cfg, rec, now) == IpStep(cfg, FRESH, now)
  {
    RecentNone(rec.attempts, now - cfg.window);
  }

  /** The record an address would have in a limiter that never evicts, against the record it has. */
  predicate Tracks(cfg: Config, records: Records, ip: Ip, full: IpRecord, now: int) {
    if ip in records then records[ip] == full else Dead(cfg, full, now)
  }

  lemma {:induction false} CheckStepTracks(cfg: Config, records: Records, e: Event, ip: Ip, full: IpRecord, last: int)
    requires AllValid(records, last) && last <= e.now
    requires Tracks(cfg, records, ip, full, last)
    ensures var (next, allowed) := CheckStep(cfg, records, e.ip, e.now, e.order);
            && AllValid(next, e.now)
            && (e.ip == ip ==> allowed == IpStep(cfg, full, e.now).1)
            && Tracks(cfg, next, ip, if e.ip == ip then IpStep(cfg, full, e.now).0 else full, e.now)
  {
    if e.ip !in records && e.ip == ip {
      DeadIsFresh(cfg, full, e.now);
    }
    IpStepValid(cfg, if e.ip in records then records[e.ip] else FRESH, last, e.now);
  }

  /** Eviction is unobservable and addresses are independent: what the limiter answers to one
      address is what a limiter that never evicts, and sees that address alone, would answer. */
  lemma {:induction false} EvictionUnobservable(cfg: Config, records: Records, events: seq<Event>, ip: Ip,
        full: IpRecord, last: int)
    requires Monotone(events) && (events != [] ==> last <= events[0].now)
    requires AllValid(records, last) && Tracks(cfg, records, ip, full, last)
    ensures DecisionsFor(events, Run(cfg, records, events), ip) == IpRun(cfg, full, TimesOf(events, ip))
    decreases |events|
  {
    if events != [] {
      var e := events[0];
      var next := CheckStep(cfg, records, e.ip, e.now, e.order).0;
      CheckStepTracks(cfg, records, e, ip, full, last);
      var full' := if e.ip == ip then IpStep(cfg, full, e.now).0 else full;
      EvictionUnobservable(cfg, next, events[1..], ip, full', e.now);
      assert Run(cfg, records, events)[1..] == Run(cfg, next, events[1..]);
      if e.ip == ip {
        assert TimesOf(events, ip) == [e.now] + TimesOf(events[1..], ip);
        assert TimesOf(events, ip)[1..] == TimesOf(events[1..], ip);
      } else {
        assert TimesOf(events, ip) == TimesOf(events[1..], ip);
      }
    }
  }

  /** Two runs that differ in the other addresses' traffic and in every eviction choice give
      one address the same answers. */
  lemma {:induction false} DecisionsDependOnOwnHistory(cfg: Config, es: seq<Event>, es': seq<Event>, ip: Ip)
    requires Monotone(es) && Monotone(es') && TimesOf(es, ip) == TimesOf(es', ip)
    ensures DecisionsFor(es, Run(cfg, map[], es), ip) == DecisionsFor(es', Run(cfg, map[], es'), ip)
  {
    EvictionUnobservable(cfg, map[], es, ip, FRESH, if es == [] then 0 else es[0].now - cfg.window);
    EvictionUnobservable(cfg, map[], es', ip, FRESH, if es' == [] then 0 else es'[0].now - cfg.window);
  }

  // ---- The limiter that remembers everything ------------------------------------------------

  /** Every admission ever made, and the current lockout; nothing is cleared or pruned. */
  datatype Ledger = Ledger(admitted: seq<int>, lockedUntil: Option<int>)

  function LedgerStep(cfg: Config, l: Ledger, now: int): (Ledger, bool) {
    if l.lockedUntil.Some? && now < l.lockedUntil.value then (l, false)
    else if |Recent(l.admitted, now - cfg.window)| >= cfg.maxRequests
    then (Ledger(l.admitted, Some(now + cfg.lockout)), false)
    else (Ledger(l.admitted + [now], None), true)
  }

  function LedgerRun(cfg: Config, l: Ledger, times: seq<int>): seq<bool>
    decreases |times|
  {
    if times == [] then []
    else
      var (next, allowed) := LedgerStep(cfg, l, times[0]);
      [allowed] + LedgerRun(cfg, next, times[1..])
  }

  lemma {:induction false} RecentAppend(a: seq<int>, b: seq<int>, cutoff: int)
    ensures Recent(a + b, cutoff) == Recent(a, cutoff) + Recent(b, cutoff)
  {
    if a == [] {
      assert a + b == b;
    } else {
      assert (a + b)[1..] == a[1..] + b;
      RecentAppend(a[1..], b, cutoff);
    }
  }

  lemma {:induction false} RecentTwice(times: seq<int>, early: int, late: int)
    requires early <= late
    ensures Recent(Recent(times, early), late) == Recent(times, late)
  {
    if times != [] {
      RecentTwice(times[1..], early, late);
      RecentAppend(if early < times[0] then [times[0]] else [], Recent(times[1..], early), late);
    }
  }

  /** The record forgets only what the window no longer counts. */
  predicate Summarises(cfg: Config, rec: IpRecord, l: Ledger, now: int) {
    && rec.lockedUntil == l.lockedUntil
    && NoneAfter(l.admitted, now)
    && (rec.lockedUntil.Some? ==> NoneAfter(l.admitted, rec.lockedUntil.value - cfg.lockout))
    && (rec.lockedUntil.None? ==> Recent(rec.attempts, now - cfg.window) == Recent(l.admitted, now - cfg.window))
  }

  lemma {:induction false} StepRefines(cfg: Config, rec: IpRecord, l: Ledger, last: int, now: int)
    requires cfg.lockout >= cfg.window && last <= now
    requires Summarises(cfg, rec, l, last)
    ensures IpStep(cfg, rec, now).1 == LedgerStep(cfg, l, now).1
    ensures Summarises(cfg, IpStep(cfg, rec, now).0, LedgerStep(cfg, l, now).0, now)
  {
    if rec.lockedUntil.None? || rec.lockedUntil.value <= now {
      var kept := if rec.lockedUntil.Some? then [] else Recent(rec.attempts, now - cfg.window);
      KeptAgrees(cfg, rec, l, last, now);
      OpenStepRefines(cfg, kept, l, now);
    }
  }

  /** The address is not locked: both ways the step can go. */
  lemma {:induction false} OpenStepRefines(cfg: Config, kept: seq<int>, l: Ledger, now: int)
    requires NoneAfter(l.admitted, now) && kept == Recent(l.admitted, now - cfg.window)
    ensures Summarises(cfg, IpRecord(kept, Some(now + cfg.lockout)), Ledger(l.admitted, Some(now + cfg.lockout)), now)
    ensures Summarises(cfg, IpRecord(kept + [now], None), Ledger(l.admitted + [now], None), now)
  {
    AppendAgrees(kept, l.admitted, now, now - cfg.window);
  }

  /** What is left of the record is what the window still counts. */
  lemma {:induction false} KeptAgrees(cfg: Config, rec: IpRecord, l: Ledger, last: int, now: int)
    requires cfg.lockout >= cfg.window && last <= now && Summarises(cfg, rec, l, last)
    requires rec.lockedUntil.Some? ==> rec.lockedUntil.value <= now
    ensures (if rec.lockedUntil.Some? then [] else Recent(rec.attempts, now - cfg.window)) == Recent(l.admitted, now - cfg.window)
  {
    if rec.lockedUntil.Some? {
      RecentNone(l.admitted, now - cfg.window);
    } else {
      RecentTwice(rec.attempts, last - cfg.window, now - cfg.window);
      RecentTwice(l.admitted, last - cfg.window, now - cfg.window);
    }
  }

  lemma {:induction false} AppendAgrees(kept: seq<int>, admitted: seq<int>, now: int, cutoff: int)
    requires kept == Recent(admitted, cutoff)
    ensures Recent(kept, cutoff) == Recent(admitted, cutoff)
    ensures Recent(kept + [now], cutoff) == Recent(admitted + [now], cutoff)
  {
    RecentTwice(admitted, cutoff, cutoff);
    RecentAppend(kept, [now], cutoff);
    RecentAppend(admitted, [now], cutoff);
  }

  /** With a lockout at least as long as the window, the limiter answers as one that keeps the
      whole history of admissions. */
  lemma {:induction false} RefinesFullHistory(cfg: Config, rec: IpRecord, l: Ledger, times: seq<int>, last: int)
    requires cfg.lockout >= cfg.window
    requires Ordered(times) && (times != [] ==> last <= times[0])
    requires Summarises(cfg, rec, l, last)
    ensures IpRun(cfg, rec, times) == LedgerRun(cfg, l, times)
    decreases |times|
  {
    if times != [] {
      StepRefines(cfg, rec, l, last, times[0]);
      RefinesFullHistory(cfg, IpStep(cfg, rec, times[0]).0, LedgerStep(cfg, l, times[0]).0, times[1..], times[0]);
    }
  }

  // ---- The window bound -----------------------------------------------------------------------

  function Admitted(times: seq<int>, decisions: seq<bool>): seq<int>
    requires |times| == |decisions|
  {
    if times == [] then []
    else (if decisions[0] then [times[0]] else []) + Admitted(times[1..], decisions[1..])
  }

  /** How many of `times` lie after `from` and no later than `to`. */
  function CountWithin(times: seq<int>, from: int, to: int): nat {
    if times == [] then 0
    else (if from < times[0] <= to then 1 else 0) + CountWithin(times[1..], from, to)
  }

  lemma {:induction false} CountAppend(a: seq<int>, b: seq<int>, from: int, to: int)
    ensures CountWithin(a + b, from, to) == CountWithin(a, from, to) + CountWithin(b, from, to)
  {
    if a == [] {
      assert a + b == b;
    } else {
      assert (a + b)[1..] == a[1..] + b;
      CountAppend(a[1..], b, from, to);
    }
  }

  lemma {:induction false} CountAtMostRecent(times: seq<int>, from: int, cutoff: int, to: int)
    requires cutoff <= from
    ensures CountWithin(times, from, to) <= |Recent(times, cutoff)|
  {
    if times != [] {
      CountAtMostRecent(times[1..], from, cutoff, to);
    }
  }

  predicate BoundedAt(cfg: Config, times: seq<int>, t: int) {
    CountWithin(times, t - cfg.window, t) <= cfg.maxRequests
  }

  ghost predicate BoundedEverywhere(cfg: Config, times: seq<int>) {
    forall t: int :: BoundedAt(cfg, times, t)
  }

  lemma {:induction false} CountOne(x: int, from: int, to: int)
    ensures CountWithin([x], from, to) == if from < x <= to then 1 else 0
  {
    var times := [x];
    assert times[1..] == [];
  }

  lemma {:induction false} AdmissionBounded(cfg: Config, admitted: seq<int>, now: int, t: int)
    requires BoundedAt(cfg, admitted, t) && |Recent(admitted, now - cfg.window)| < cfg.maxRequests
    ensures BoundedAt(cfg, admitted + [now], t)
  {
    CountAppend(admitted, [now], t - cfg.window, t);
    CountOne(now, t - cfg.window, t);
    if t - cfg.window < now <= t {
      CountAtMostRecent(admitted, t - cfg.window, now - cfg.window, t);
    }
  }

  lemma {:induction false} LedgerStepBounded(cfg: Config, l: Ledger, last: int, now: int)
    requires last <= now && NoneAfter(l.admitted, last) && BoundedEverywhere(cfg, l.admitted)
    ensures BoundedEverywhere(cfg, LedgerStep(cfg, l, now).0.admitted)
  {
    if LedgerStep(cfg, l, now).1 {
      forall t: int ensures BoundedAt(cfg, l.admitted + [now], t) {
        assert BoundedAt(cfg, l.admitted, t);
        AdmissionBounded(cfg, l.admitted, now, t);
      }
    }
  }

  lemma {:induction false} LedgerBound(cfg: Config, l: Ledger, times: seq<int>, last: int)
    requires Ordered(times) && (times != [] ==> last <= times[0])
    requires NoneAfter(l.admitted, last)
    requires BoundedEverywhere(cfg, l.admitted)
    ensures |LedgerRun(cfg, l, times)| == |times|
    ensures BoundedEverywhere(cfg, l.admitted + Admitted(times, LedgerRun(cfg, l, times)))
    decreases |times|
  {
    if times == [] {
      assert l.admitted + [] == l.admitted;
    } else {
      var now := times[0];
      var (next, allowed) := LedgerStep(cfg, l, now);
      LedgerStepBounded(cfg, l, last, now);
      LedgerBound(cfg, next, times[1..], now);
      var rest := Admitted(times[1..], LedgerRun(cfg, next, times[1..]));
      assert LedgerRun(cfg, l, times)[1..] == LedgerRun(cfg, next, times[1..]);
      assert l.admitted + ((if allowed then [now] else []) + rest) == next.admitted + rest;
    }
  }

  /** The admission times of one address in a run of the limiter from its empty state. */
  function AdmissionsOf(cfg: Config, events: seq<Event>, ip: Ip): seq<int> {
    Admitted(TimesOf(events, ip), DecisionsFor(events, Run(cfg, map[], events), ip))
  }

  lemma {:induction false} TimesOrdered(events: seq<Event>, ip: Ip)
    requires Monotone(events)
    ensures Ordered(TimesOf(events, ip))
    ensures events != [] ==> AllAfter(TimesOf(events, ip), events[0].now - 1)
  {
    if events != [] {
      TimesOrdered(events[1..], ip);
      assert events[1..] != [] ==> events[0].now <= events[1..][0].now;
    }
  }

  /** At most `maxRequests` admissions of one address in any interval of the window's length,
      across lockout resets and evictions, whatever the other addresses do. */
  lemma {:induction false} WindowBound(cfg: Config, events: seq<Event>, ip: Ip, t: int)
    requires Monotone(events) && cfg.lockout >= cfg.window
    ensures BoundedAt(cfg, AdmissionsOf(cfg, events, ip), t)
  {
    var times := TimesOf(events, ip);
    var start := if events == [] then 0 else events[0].now - cfg.window;
    EvictionUnobservable(cfg, map[], events, ip, FRESH, start);
    TimesOrdered(events, ip);
    var first := if times == [] then 0 else times[0];
    forall t: int ensures BoundedAt(cfg, [], t) {
    }
    RefinesFullHistory(cfg, FRESH, Ledger([], None), times, first);
    LedgerBound(cfg, Ledger([], None), times, first);
    assert [] + AdmissionsOf(cfg, events, ip) == AdmissionsOf(cfg, events, ip);
  }

  // ---- Exactly when the bound holds ---------------------------------------------------------

  ghost predicate AlwaysBounded(cfg: Config) {
    forall events: seq<Event>, ip: Ip, t: int | Monotone(events) ::
      BoundedAt(cfg, AdmissionsOf(cfg, events, ip), t)
  }

  function Repeat<T>(x: T, n: nat): (r: seq<T>)
    ensures |r| == n && forall i | 0 <= i < n :: r[i] == x
  {
    if n == 0 then [] else [x] + Repeat(x, n - 1)
  }

  /** `maxRequests` requests at time 0, one more that locks the address, and one when the
      lockout ends, which is admitted although the window still holds the first ones. */
  function Burst(cfg: Config): seq<Event> {
    Repeat(Event(0, 0, []), cfg.maxRequests + 1) + [Event(0, cfg.lockout, [])]
  }

  lemma {:induction false} BurstDecisions(cfg: Config, rec: IpRecord, n: nat)
    requires 1 <= cfg.maxRequests && 1 <= cfg.window && n <= cfg.maxRequests
    requires rec == IpRecord(Repeat<int>(0, cfg.maxRequests - n), None)
    ensures IpRun(cfg, rec, Repeat<int>(0, n + 1) + [cfg.lockout]) == Repeat(true, n) + [false, true]
    decreases n
  {
    var times := Repeat<int>(0, n + 1) + [cfg.lockout];
    RecentAll(Repeat<int>(0, cfg.maxRequests - n), 0 - cfg.window);
    if n == 0 {
      assert times == [0, cfg.lockout] && times[1..] == [cfg.lockout];
      AdmittedAfterLockout(cfg, IpStep(cfg, rec, 0).0);
      assert Repeat(true, 0) + [false, true] == [false] + [true];
    } else {
      assert times[0] == 0 && times[1..] == Repeat<int>(0, n) + [cfg.lockout];
      RepeatSnoc<int>(0, cfg.maxRequests - n);
      var next := IpRecord(Repeat<int>(0, cfg.maxRequests - (n - 1)), None);
      assert IpStep(cfg, rec, 0) == (next, true);
      BurstDecisions(cfg, next, n - 1);
      assert [true] + (Repeat(true, n - 1) + [false, true]) == Repeat(true, n) + [false, true];
    }
  }

  lemma {:induction false} AdmittedAfterLockout(cfg: Config, locked: IpRecord)
    requires 1 <= cfg.maxRequests && locked.lockedUntil == Some(cfg.lockout)
    ensures IpRun(cfg, locked, [cfg.lockout]) == [true]
  {
    assert [cfg.lockout][1..] == [];
    assert IpStep(cfg, locked, cfg.lockout).1;
  }

  lemma {:induction false} RecentAll(times: seq<int>, cutoff: int)
    requires AllAfter(times, cutoff)
    ensures Recent(times, cutoff) == times
  {
    if times != [] {
      RecentAll(times[1..], cutoff);
    }
  }

  lemma {:induction false} RepeatSnoc<T>(x: T, n: nat)
    ensures Repeat(x, n) + [x] == Repeat(x, n + 1)
  {
    if n > 0 {
      RepeatSnoc(x, n - 1);
    }
  }

  lemma {:induction false} BurstTimes(n: nat, last: int)
    ensures TimesOf(Repeat(Event(0, 0, []), n) + [Event(0, last, [])], 0) == Repeat<int>(0, n) + [last]
  {
    var es := Repeat(Event(0, 0, []), n) + [Event(0, last, [])];
    if n == 0 {
      assert es == [Event(0, last, [])] && es[1..] == [];
    } else {
      assert es[1..] == Repeat(Event(0, 0, []), n - 1) + [Event(0, last, [])];
      BurstTimes(n - 1, last);
    }
  }

  lemma {:induction false} BurstAdmitted(n: nat, last: int)
    ensures |Repeat<int>(0, n + 1) + [last]| == |Repeat(true, n) + [false, true]|
    ensures Admitted(Repeat<int>(0, n + 1) + [last], Repeat(true, n) + [false, true]) == Repeat<int>(0, n) + [last]
  {
    var times, decisions := Repeat<int>(0, n + 1) + [last], Repeat(true, n) + [false, true];
    if n == 0 {
      assert times == [0, last] && times[1..] == [last] && [last][1..] == [];
      assert decisions == [false, true] && decisions[1..] == [true] && [true][1..] == [];
      assert Admitted([last], [true]) == [last];
    } else {
      assert times[1..] == Repeat<int>(0, n) + [last];
      assert decisions[1..] == Repeat(true, n - 1) + [false, true];
      BurstAdmitted(n - 1, last);
    }
  }

  lemma {:induction false} CountRepeat(x: int, n: nat, from: int, to: int)
    requires from < x <= to
    ensures CountWithin(Repeat(x, n), from, to) == n
  {
    if n > 0 {
      CountRepeat(x, n - 1, from, to);
    }
  }

  lemma {:induction false} ShortLockoutBreaksBound(cfg: Config)
    requires 1 <= cfg.maxRequests && cfg.lockout < cfg.window
    ensures Monotone(Burst(cfg))
    ensures CountWithin(AdmissionsOf(cfg, Burst(cfg), 0), cfg.lockout - cfg.window, cfg.lockout) == cfg.maxRequests + 1
  {
    var from, to := cfg.lockout - cfg.window, cfg.lockout;
    BurstAdmissions(cfg);
    CountAppend(Repeat<int>(0, cfg.maxRequests), [to], from, to);
    CountRepeat(0, cfg.maxRequests, from, to);
    CountOne(to, from, to);
  }

  lemma {:induction false} BurstAdmissions(cfg: Config)
    requires 1 <= cfg.maxRequests && cfg.lockout < cfg.window
    ensures Monotone(Burst(cfg))
    ensures AdmissionsOf(cfg, Burst(cfg), 0) == Repeat<int>(0, cfg.maxRequests) + [cfg.lockout]
  {
    var events := Burst(cfg);
    assert Monotone(events);
    EvictionUnobservable(cfg, map[], Burst(cfg), 0, FRESH, 0 - cfg.window);
    BurstTimes(cfg.maxRequests + 1, cfg.lockout);
    BurstDecisions(cfg, FRESH, cfg.maxRequests);
    BurstAdmitted(cfg.maxRequests, cfg.lockout);
    var times := TimesOf(Burst(cfg), 0);
    assert times == Repeat<int>(0, cfg.maxRequests + 1) + [cfg.lockout];
    var decisions := DecisionsFor(Burst(cfg), Run(cfg, map[], Burst(cfg)), 0);
    assert decisions == Repeat(true, cfg.maxRequests) + [false, true];
  }

  lemma {:induction false} NothingAdmitted(cfg: Config, rec: IpRecord, times: seq<int>)
    requires cfg.maxRequests == 0
    ensures Admitted(times, IpRun(cfg, rec, times)) == []
    decreases |times|
  {
    if times != [] {
      NothingAdmitted(cfg, IpStep(cfg, rec, times[0]).0, times[1..]);
    }
  }

  /** The limiter keeps its promise for every run exactly when the lockout covers the window
      (or nothing is ever admitted). */
  lemma {:induction false} BoundedExactlyWhen(cfg: Config)
    ensures AlwaysBounded(cfg) <==> cfg.lockout >= cfg.window || cfg.maxRequests == 0
  {
    if cfg.lockout >= cfg.window {
      forall events: seq<Event>, ip: Ip, t: int | Monotone(events)
        ensures BoundedAt(cfg, AdmissionsOf(cfg, events, ip), t)
      {
        WindowBound(cfg, events, ip, t);
      }
    } else if cfg.maxRequests == 0 {
      forall events: seq<Event>, ip: Ip, t: int | Monotone(events)
        ensures BoundedAt(cfg, AdmissionsOf(cfg, events, ip), t)
      {
        EvictionUnobservable(cfg, map[], events, ip, FRESH, if events == [] then 0 else events[0].now - cfg.window);
        NothingAdmitted(cfg, FRESH, TimesOf(events, ip));
      }
    } else {
      ShortLockoutBreaksBound(cfg);
      var events, t := Burst(cfg), cfg.lockout as int;
      assert !BoundedAt(cfg, AdmissionsOf(cfg, events, 0), t);
    }
  }
}

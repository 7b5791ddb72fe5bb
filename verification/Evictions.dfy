/** Which records a large map of the rate limiter loses (crates/rustykrab-gateway/src/rate_limit.rs).
    `RateLimit.EvictionUnobservable` says that no answer depends on it; this says what it is. */
module Evictions {
  import opened Options
  import opened RateLimit

  /** Not locked out after `now`, and no attempt within two windows. */
  ghost predicate Idle(cfg: Config, rec: IpRecord, now: int) {
    && (rec.lockedUntil.Some? ==> rec.lockedUntil.value <= now)
    && (rec.attempts == [] || rec.attempts[|rec.attempts| - 1] + 2 * cfg.window <= now)
  }

  ghost predicate Distinct(ips: seq<Ip>) {
    forall i, j :: 0 <= i < j < |ips| ==> ips[i] != ips[j]
  }

  ghost predicate Scanned(order: seq<Ip>, ip: Ip) {
    exists i :: 0 <= i < |order| && i < 512 && order[i] == ip
  }

  lemma {:induction false} StaleAmongIs(cfg: Config, records: Records, keys: seq<Ip>, now: int)
    ensures forall ip ::
      ip in StaleAmong(cfg, records, keys, now) <==> ip in keys && ip in records && Idle(cfg, records[ip], now)
  {
    if keys != [] {
      StaleAmongIs(cfg, records, keys[1..], now);
      assert keys == [keys[0]] + keys[1..];
    }
  }

  lemma {:induction false} StaleAmongIsDistinct(cfg: Config, records: Records, keys: seq<Ip>, now: int)
    requires Distinct(keys)
    ensures Distinct(StaleAmong(cfg, records, keys, now))
  {
    if keys != [] {
      StaleAmongIsDistinct(cfg, records, keys[1..], now);
      StaleAmongIs(cfg, records, keys[1..], now);
      forall i | 0 <= i < |keys[1..]| ensures keys[1..][i] != keys[0] {
      }
    }
  }

  lemma {:induction false} TakenAreScanned(order: seq<Ip>)
    ensures forall ip :: ip in Take(order, SCAN_LIMIT) <==> Scanned(order, ip)
  {
    forall ip | Scanned(order, ip) ensures ip in Take(order, SCAN_LIMIT) {
      var i :| 0 <= i < |order| && i < 512 && order[i] == ip;
      assert Take(order, SCAN_LIMIT)[i] == ip;
    }
    forall ip | ip in Take(order, SCAN_LIMIT) ensures Scanned(order, ip) {
      var i :| 0 <= i < |Take(order, SCAN_LIMIT)| && Take(order, SCAN_LIMIT)[i] == ip;
      assert order[i] == ip;
    }
  }

  /** A map of at most 1000 records loses nothing.  A larger one loses idle records among the first
      512 of its order: all of them, or 256 different ones. */
  lemma {:induction false} EvictsExactly(cfg: Config, records: Records, order: seq<Ip>, now: int)
    requires Distinct(order)
    ensures
      var victims := Victims(cfg, records, order, now);
      && (|records| <= 1000 ==> victims == [])
      && Distinct(victims) && |victims| <= 256
      && (forall ip :: ip in victims ==> Scanned(order, ip) && ip in records && Idle(cfg, records[ip], now))
      && (|records| > 1000 && |victims| < 256 ==>
            forall ip :: Scanned(order, ip) && ip in records && Idle(cfg, records[ip], now) ==> ip in victims)
  {
    var scan := Take(order, SCAN_LIMIT);
    var stale := StaleAmong(cfg, records, scan, now);
    var victims := Victims(cfg, records, order, now);
    TakenAreScanned(order);
    StaleAmongIs(cfg, records, scan, now);
    StaleAmongIsDistinct(cfg, records, scan, now);
    if |records| > 1000 {
      forall ip | ip in victims ensures ip in stale {
      }
    }
  }

  /** A request is never answered at the cost of a record in use: what a large map loses is idle, and
      the rest stays as it was. */
  lemma {:induction false} CheckKeepsTheRest(cfg: Config, records: Records, ip: Ip, now: int, order: seq<Ip>, other: Ip)
    requires other in records && other != ip && !Idle(cfg, records[other], now)
    ensures
      var (after, _) := CheckStep(cfg, records, ip, now, order);
      other in after && after[other] == records[other]
  {
    var (rec, _) := IpStep(cfg, if ip in records then records[ip] else FRESH, now);
    var updated := records[ip := rec];
    StaleAmongIs(cfg, updated, Take(order, SCAN_LIMIT), now);
  }
}

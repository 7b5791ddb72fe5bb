/** Scheduled jobs (crates/rustykrab-store/src/jobs.rs).  The table keeps `next_run_at` as RFC 3339 text
    and compares the texts; `Timestamps` is why that selects by time.  Parsing schedules and computing
    the next occurrence of a cron expression are foreign. */
module Jobs {
  import opened Options
  import opened Timestamps

  type JobId = string

  datatype Job = Job(
    schedule: string,
    task: string,
    oneShot: bool,
    enabled: bool,
    nextRunAt: Instant,
    lastRunAt: Option<Instant>,
    createdAt: Instant)

  datatype Error = Config(what: string) | Storage(what: string)

  /** `try_parse_datetime`, and `compute_next_cron_run` after an instant; `None` is an error. */
  datatype Calendar = Calendar(
    datetime: string -> Option<Instant>,
    nextCron: (string, Instant) -> Option<Instant>)
  {
    /** All that is assumed of cron: the next occurrence is strictly later, in a year of four digits. */
    ghost predicate Sound() {
      && (forall e: string, t: Instant :: nextCron(e, t).Some? ==> t < nextCron(e, t).value && InRange(nextCron(e, t).value))
      && (forall s: string :: datetime(s).Some? ==> InRange(datetime(s).value))
    }
  }

  const HOUR := 3600 * SECOND

  /** `parse_schedule`: an instant in the future, once, or a cron expression. */
  function ParseSchedule(cal: Calendar, schedule: string, now: Instant): Outcome<(bool, Instant), Error> {
    match cal.datetime(schedule)
    case Some(ts) =>
      if ts <= now then Err(Config("one-shot schedule must be in the future")) else Ok((true, ts))
    case None =>
      match cal.nextCron(schedule, now)
      case Some(next) => Ok((false, next))
      case None => Err(Config("invalid or exhausted cron expression"))
  }

  /** When a recurring job that was marked last at a time runs again. */
  function NextTime(cal: Calendar, schedule: string, marked: Instant): Instant {
    var next := cal.nextCron(schedule, marked);
    if next.Some? then next.value else marked + HOUR
  }

  function Executed(cal: Calendar, j: Job, now: Instant): Job {
    if j.oneShot then j.(enabled := false, lastRunAt := Some(now))
    else j.(lastRunAt := Some(now), nextRunAt := NextTime(cal, j.schedule, now))
  }

  /** `after` is `j` once a run of it has ended at `now`: a one-shot job is switched off, and a recurring
      one comes next at its next occurrence, or in an hour when it has none. */
  predicate IsMarked(cal: Calendar, j: Job, after: Job, now: Instant) {
    && after.lastRunAt == Some(now) && after.oneShot == j.oneShot
    && after.schedule == j.schedule && after.task == j.task && after.createdAt == j.createdAt
    && if j.oneShot then !after.enabled && after.nextRunAt == j.nextRunAt
       else
         && after.enabled == j.enabled
         && match cal.nextCron(j.schedule, now)
            case Some(next) => after.nextRunAt == next
            case None => after.nextRunAt == now + 3600 * 1_000_000_000
  }

  lemma {:induction false} ExecutedInRange(cal: Calendar, j: Job, now: Instant)
    requires cal.Sound() && InRange(j.nextRunAt) && InRange(now + HOUR)
    ensures InRange(Executed(cal, j, now).nextRunAt)
  {
  }

  predicate Due(j: Job, now: Instant) {
    j.enabled && j.nextRunAt <= now
  }

  class JobStore {
    const cal: Calendar
    var jobs: map<JobId, Job>

    /** Stored times print with years of four digits. */
    ghost predicate Valid()
      reads this
    {
      cal.Sound() && forall id :: id in jobs ==> InRange(jobs[id].nextRunAt)
    }

    constructor (cal: Calendar)
      requires cal.Sound()
      ensures this.cal == cal && jobs == map[] && Valid()
    {
      this.cal := cal;
      jobs := map[];
    }

    /** A new job is enabled and runs strictly later than now; an error stores nothing. */
    method CreateJob(schedule: string, task: string, newId: JobId, now: Instant) returns (r: Outcome<Job, Error>)
      requires Valid() && newId !in jobs
      modifies this`jobs
      ensures Valid()
      ensures match r
        case Ok(job) =>
          && jobs == old(jobs)[newId := job]
          && job.enabled && now < job.nextRunAt && job.lastRunAt == None && job.createdAt == now
          && job.schedule == schedule && job.task == task
          && job.oneShot == cal.datetime(schedule).Some?
          && Some(job.nextRunAt) == (if job.oneShot then cal.datetime(schedule) else cal.nextCron(schedule, now))
        case Err(_) =>
          && jobs == old(jobs)
          && match cal.datetime(schedule)
             case Some(ts) => ts <= now
             case None => cal.nextCron(schedule, now).None?
    {
      var parsed := ParseSchedule(cal, schedule, now);
      if parsed.Err? {
        return Err(parsed.error);
      }
      var (oneShot, next) := parsed.value;
      var job := Job(schedule, task, oneShot, true, next, None, now);
      jobs := jobs[newId := job];
      r := Ok(job);
    }

    /** The text comparison selects exactly the enabled jobs whose time has come. */
    method GetDueJobs(now: Instant) returns (due: map<JobId, Job>)
      requires Valid() && InRange(now)
      ensures forall id :: id in due <==> id in jobs && Due(jobs[id], now)
      ensures forall id :: id in due ==> due[id] == jobs[id]
    {
      var nowText := Rfc3339(now);
      forall id | id in jobs ensures TextLess(nowText, Rfc3339(jobs[id].nextRunAt)) <==> now < jobs[id].nextRunAt {
        TextOrderIsTimeOrder(now, jobs[id].nextRunAt);
      }
      due := map id | id in jobs && jobs[id].enabled && !TextLess(nowText, Rfc3339(jobs[id].nextRunAt)) :: jobs[id];
    }

    method MarkExecuted(id: JobId, now: Instant) returns (r: Outcome<(), Error>)
      requires Valid() && InRange(now + HOUR)
      modifies this`jobs
      ensures Valid()
      ensures r.Ok? <==> id in old(jobs)
      ensures jobs == if id in old(jobs) then old(jobs)[id := Executed(cal, old(jobs)[id], now)] else old(jobs)
      ensures r.Ok? ==> IsMarked(cal, old(jobs)[id], jobs[id], now)
    {
      if id !in jobs {
        return Err(Storage("no such job"));
      }
      var j := jobs[id];
      ExecutedInRange(cal, j, now);
      if j.oneShot {
        jobs := jobs[id := j.(enabled := false, lastRunAt := Some(now))];
      } else {
        var next := cal.nextCron(j.schedule, now);
        var at := if next.Some? then next.value else now + HOUR;
        jobs := jobs[id := j.(lastRunAt := Some(now), nextRunAt := at)];
      }
      r := Ok(());
    }

    method DeleteJob(id: JobId) returns (existed: bool)
      requires Valid()
      modifies this`jobs
      ensures Valid() && existed == (id in old(jobs)) && jobs == old(jobs) - {id}
    {
      existed := id in jobs;
      jobs := jobs - {id};
    }
  }

  /** Once marked at `now`, a job is not due again at that time: a one-shot job never, a recurring one
      not until its next, strictly later, time. */
  lemma {:induction false} MarkedIsNotDue(cal: Calendar, j: Job, now: Instant, later: Instant)
    requires cal.Sound() && now <= later
    ensures
      var after := Executed(cal, j, now);
      && !Due(after, now)
      && (j.oneShot ==> !Due(after, later))
      && (!j.oneShot && j.enabled ==> now < after.nextRunAt && (Due(after, later) <==> after.nextRunAt <= later))
  {
  }

  // ---- Over whole runs ---------------------------------------------------------------------

  /** What happens to one job: the executor checks it, and starts a run of it when it is due; or a run
      has ended and marks it.  A run takes its time, so checks may come before its mark. */
  datatype Tick = Check(now: Instant) | Mark(now: Instant)

  function After(cal: Calendar, j: Job, ticks: seq<Tick>): Job {
    if ticks == [] then j
    else
      var n := |ticks| - 1;
      var before := After(cal, j, ticks[..n]);
      if ticks[n].Mark? then Executed(cal, before, ticks[n].now) else before
  }

  predicate Starts(cal: Calendar, j: Job, ticks: seq<Tick>, k: nat)
    requires k < |ticks|
  {
    ticks[k].Check? && Due(After(cal, j, ticks[..k]), ticks[k].now)
  }

  ghost predicate Forward(ticks: seq<Tick>) {
    forall i, j :: 0 <= i < j < |ticks| ==> ticks[i].now <= ticks[j].now
  }

  /** No run ends between the i-th and the k-th tick. */
  ghost predicate NoneEnds(ticks: seq<Tick>, i: nat, k: nat)
    requires k <= |ticks|
  {
    forall l :: i < l < k ==> ticks[l].Check?
  }

  lemma {:induction false} ChecksChangeNothing(cal: Calendar, j: Job, ticks: seq<Tick>, i: nat, k: nat)
    requires i <= k <= |ticks| && forall l :: i <= l < k ==> ticks[l].Check?
    ensures After(cal, j, ticks[..k]) == After(cal, j, ticks[..i])
    decreases k
  {
    if i < k {
      ChecksChangeNothing(cal, j, ticks, i, k - 1);
      assert ticks[..k][..k - 1] == ticks[..k - 1];
    }
  }

  /** Marking changes neither kind nor schedule, and never enables a job. */
  lemma {:induction false} StaysTheSameKind(cal: Calendar, j: Job, ticks: seq<Tick>, i: nat, k: nat)
    requires i <= k <= |ticks|
    ensures
      var a, b := After(cal, j, ticks[..i]), After(cal, j, ticks[..k]);
      && b.oneShot == j.oneShot && b.schedule == j.schedule && (b.enabled ==> a.enabled)
      && (!j.oneShot ==> b.enabled == j.enabled)
    decreases k
  {
    if k > 0 {
      StaysTheSameKind(cal, j, ticks, if i < k then i else i - 1, k - 1);
      assert ticks[..k][..k - 1] == ticks[..k - 1];
    }
  }

  /** The job once the mark at tick `l` is the last before tick `k`. */
  lemma {:induction false} LastMark(cal: Calendar, j: Job, ticks: seq<Tick>, l: nat, k: nat)
    requires l < k <= |ticks| && ticks[l].Mark? && NoneEnds(ticks, l, k)
    ensures After(cal, j, ticks[..k]) == Executed(cal, After(cal, j, ticks[..l]), ticks[l].now)
  {
    ChecksChangeNothing(cal, j, ticks, l + 1, k);
    assert ticks[..l + 1][..l] == ticks[..l];
  }

  /** A one-shot job runs again exactly when a check comes before a run has ended and marked it. */
  lemma {:induction false} OneShotRunsAgainExactlyWhen(cal: Calendar, j: Job, ticks: seq<Tick>, i: nat, k: nat)
    requires j.oneShot && Forward(ticks) && i < k < |ticks|
    requires Starts(cal, j, ticks, i) && ticks[k].Check?
    ensures Starts(cal, j, ticks, k) <==> NoneEnds(ticks, i, k)
  {
    if NoneEnds(ticks, i, k) {
      ChecksChangeNothing(cal, j, ticks, i, k);
    } else {
      var l :| i < l < k && ticks[l].Mark?;
      assert ticks[..l + 1][..l] == ticks[..l];
      StaysTheSameKind(cal, j, ticks, l, l);
      StaysTheSameKind(cal, j, ticks, l + 1, k);
    }
  }

  /** So it runs at most once when every check after its start comes after the end of a run. */
  lemma {:induction false} OneShotRunsOnce(cal: Calendar, j: Job, ticks: seq<Tick>, i: nat, k: nat)
    requires j.oneShot && Forward(ticks) && i < k < |ticks| && Starts(cal, j, ticks, i)
    requires !NoneEnds(ticks, i, k)
    ensures !Starts(cal, j, ticks, k)
  {
    if ticks[k].Check? {
      OneShotRunsAgainExactlyWhen(cal, j, ticks, i, k);
    }
  }

  /** A recurring job runs again exactly when no run of it has ended since, or its next occurrence
      after the last end has come. */
  lemma {:induction false} RecurringRunsAgainExactlyWhen(cal: Calendar, j: Job, ticks: seq<Tick>, i: nat, k: nat)
    returns (l: nat)
    requires !j.oneShot && Forward(ticks) && i < k < |ticks|
    requires Starts(cal, j, ticks, i) && ticks[k].Check?
    ensures i <= l < k && NoneEnds(ticks, l, k) && (l == i <==> NoneEnds(ticks, i, k)) && (l == i || ticks[l].Mark?)
    ensures Starts(cal, j, ticks, k)
      <==> l == i || (ticks[l].Mark? && NextTime(cal, j.schedule, ticks[l].now) <= ticks[k].now)
  {
    l := k - 1;
    while l > i && ticks[l].Check?
      invariant i <= l < k
      invariant NoneEnds(ticks, l, k)
    {
      l := l - 1;
    }
    if l == i {
      ChecksChangeNothing(cal, j, ticks, i, k);
    } else {
      LastMark(cal, j, ticks, l, k);
      StaysTheSameKind(cal, j, ticks, i, k);
      StaysTheSameKind(cal, j, ticks, i, i);
      StaysTheSameKind(cal, j, ticks, l, l);
    }
  }

  /** A recurring job runs at most once at any one instant, once the first of two runs has ended. */
  lemma {:induction false} NoDoubleRun(cal: Calendar, j: Job, ticks: seq<Tick>, i: nat, k: nat)
    requires cal.Sound() && !j.oneShot && Forward(ticks) && i < k < |ticks|
    requires Starts(cal, j, ticks, i) && Starts(cal, j, ticks, k) && !NoneEnds(ticks, i, k)
    ensures ticks[i].now < ticks[k].now
  {
    var l := RecurringRunsAgainExactlyWhen(cal, j, ticks, i, k);
  }

  /** Between two starts a recurring job waits for exactly the first occurrence after the end of the last
      run in between. */
  lemma {:induction false} WaitsForNextOccurrence(cal: Calendar, j: Job, ticks: seq<Tick>, i: nat, k: nat, next: Instant)
    returns (l: nat)
    requires !j.oneShot && Forward(ticks) && i < k < |ticks|
    requires Starts(cal, j, ticks, i) && ticks[k].Check? && !NoneEnds(ticks, i, k)
    requires forall l :: i < l < k && ticks[l].Mark? && NoneEnds(ticks, l, k) ==>
      cal.nextCron(j.schedule, ticks[l].now) == Some(next)
    ensures i < l < k && ticks[l].Mark? && NoneEnds(ticks, l, k)
    ensures Starts(cal, j, ticks, k) <==> next <= ticks[k].now
  {
    l := RecurringRunsAgainExactlyWhen(cal, j, ticks, i, k);
  }
}

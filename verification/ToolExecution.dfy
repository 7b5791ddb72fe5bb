/** Executing the tool calls of one round (crates/rustykrab-agent/src/runner.rs): retries of one call,
    and many calls in parallel under a bounded number of permits.

    What a tool does at each attempt is arbitrary. */
module ToolExecution {
  import opened Options
  import opened Json
  import opened Messages

  datatype ErrorKind = Auth | InvalidInput | PermissionDenied | Transient

  // `text` is the error as displayed.
  datatype Error = Error(kind: ErrorKind, text: string)

  type Attempt = Outcome<Json, Error>
  type Execution = Outcome<ToolResult, Error>

  const EXTERNAL_CONTENT_TOOLS := {"browser", "http_request", "http_session", "web_fetch", "web_search", "x_search"}

  /** What a successful attempt is turned into. */
  function Wrapped(call: ToolCall, output: Json): ToolResult {
    ToolResult(call.id, if call.name in EXTERNAL_CONTENT_TOOLS then Fence(output) else output, false)
  }

  /** Not worth another try. */
  predicate Fatal(e: Error) {
    e.kind.Auth? || e.kind.InvalidInput? || e.kind.PermissionDenied?
  }

  function Concluded(call: ToolCall, a: Attempt): Execution {
    match a
    case Ok(output) => Ok(Wrapped(call, output))
    case Err(e) => Err(e)
  }

  /** The attempts from number `k` on. */
  function WithRetries(call: ToolCall, attempt: nat -> Attempt, k: nat, maxRetries: nat): Execution
    requires k <= maxRetries
    decreases maxRetries - k
  {
    if attempt(k).Ok? || Fatal(attempt(k).error) || k == maxRetries then Concluded(call, attempt(k))
    else WithRetries(call, attempt, k + 1, maxRetries)
  }

  method ExecuteWithRetries(call: ToolCall, attempt: nat -> Attempt, maxRetries: nat) returns (r: Execution)
    ensures r == WithRetries(call, attempt, 0, maxRetries)
  {
    var lastErr: Option<Error> := None;
    for k := 0 to maxRetries + 1
      invariant k <= maxRetries ==> WithRetries(call, attempt, 0, maxRetries) == WithRetries(call, attempt, k, maxRetries)
      invariant k > 0 ==> lastErr.Some?
      invariant k == maxRetries + 1 ==> WithRetries(call, attempt, 0, maxRetries) == Err(lastErr.value)
    {
      match attempt(k) {
        case Ok(output) =>
          return Ok(Wrapped(call, output));
        case Err(e) =>
          if Fatal(e) {
            return Err(e);
          }
          lastErr := Some(e);
      }
    }
    r := Err(lastErr.value);
  }

  predicate Retried(attempt: nat -> Attempt, k: nat) {
    attempt(k).Err? && !Fatal(attempt(k).error)
  }

  /** The result is that of the first attempt that succeeded or failed for good, and of the last one
      allowed when there is none. */
  lemma {:induction false} RetriesStopAtFirst(call: ToolCall, attempt: nat -> Attempt, k: nat, maxRetries: nat)
    returns (last: nat)
    requires k <= maxRetries
    ensures k <= last <= maxRetries
    ensures forall j :: k <= j < last ==> Retried(attempt, j)
    ensures last < maxRetries ==> !Retried(attempt, last)
    ensures WithRetries(call, attempt, k, maxRetries) == Concluded(call, attempt(last))
    decreases maxRetries - k
  {
    if Retried(attempt, k) && k < maxRetries {
      last := RetriesStopAtFirst(call, attempt, k + 1, maxRetries);
    } else {
      last := k;
    }
  }

  /** A call succeeds exactly when some allowed attempt succeeds after nothing but transient errors. */
  lemma {:induction false} SucceedsExactlyWhen(call: ToolCall, attempt: nat -> Attempt, maxRetries: nat)
    ensures WithRetries(call, attempt, 0, maxRetries).Ok?
      <==> exists k :: 0 <= k <= maxRetries && attempt(k).Ok? && forall j :: 0 <= j < k ==> Retried(attempt, j)
  {
    var last := RetriesStopAtFirst(call, attempt, 0, maxRetries);
    if k :| 0 <= k <= maxRetries && attempt(k).Ok? && forall j :: 0 <= j < k ==> Retried(attempt, j) {
      assert !Retried(attempt, k);
    }
  }

  // ---- In parallel -------------------------------------------------------------------------

  /** The identity of a call and how it ended. */
  datatype CallOutcome = CallOutcome(name: string, callId: string, result: Execution)

  /** The attempts of each call of a round, and whether its task panics. */
  datatype Round = Round(attempt: (nat, nat) -> Attempt, panic: nat -> Option<string>, maxRetries: nat) {
    function Attempts(k: nat): nat -> Attempt {
      (n: nat) => attempt(k, n)
    }

    /** How the k-th call ends in a task of its own. */
    function Joined(call: ToolCall, k: nat): Execution {
      match panic(k)
      case Some(why) => Err(Error(Transient, "task panicked: " + why))
      case None => WithRetries(call, Attempts(k), 0, maxRetries)
    }

    function Result(call: ToolCall, k: nat, alone: bool): Execution {
      if alone then WithRetries(call, Attempts(k), 0, maxRetries) else Joined(call, k)
    }
  }

  function Outcomes(calls: seq<ToolCall>, round: Round): (r: seq<CallOutcome>)
    ensures |r| == |calls|
    ensures forall k :: 0 <= k < |r| ==>
      r[k] == CallOutcome(calls[k].name, calls[k].id, round.Result(calls[k], k, |calls| == 1))
  {
    seq(|calls|, k requires 0 <= k < |calls| =>
      CallOutcome(calls[k].name, calls[k].id, round.Result(calls[k], k, |calls| == 1)))
  }

  const MAX_CONCURRENT_TOOL_CALLS := 10

  datatype Slot = Waiting | Running | Finished(result: Execution)

  function Count(slots: seq<Slot>): nat {
    if slots == [] then 0 else Count(slots[..|slots| - 1]) + if slots[|slots| - 1].Running? then 1 else 0
  }

  function Work(slots: seq<Slot>): nat {
    if slots == [] then 0
    else
      Work(slots[..|slots| - 1])
      + match slots[|slots| - 1] { case Waiting => 2 case Running => 1 case Finished(_) => 0 }
  }

  lemma {:induction false} UpdateSlot(slots: seq<Slot>, i: nat, s: Slot)
    requires i < |slots|
    ensures Count(slots[i := s])
      == Count(slots) + (if s.Running? then 1 else 0) - (if slots[i].Running? then 1 else 0)
    ensures slots[i].Waiting? && s.Running? ==> Work(slots[i := s]) < Work(slots)
    ensures slots[i].Running? && s.Finished? ==> Work(slots[i := s]) < Work(slots)
    decreases |slots|
  {
    var n := |slots| - 1;
    if i < n {
      UpdateSlot(slots[..n], i, s);
      assert slots[i := s][..n] == slots[..n][i := s];
    } else {
      assert slots[i := s][..n] == slots[..n];
    }
  }

  lemma {:induction false} SomeRuns(slots: seq<Slot>)
    requires Count(slots) > 0
    ensures exists i :: 0 <= i < |slots| && slots[i].Running?
    decreases |slots|
  {
    var n := |slots| - 1;
    if !slots[n].Running? {
      SomeRuns(slots[..n]);
      var i :| 0 <= i < n && slots[..n][i].Running?;
      assert slots[i].Running?;
    }
  }

  /** The spawned tasks, scheduled in any order the permits allow; `permits` of them are free, and
      `peak` is the largest number of tasks that ever ran at once. */
  method RunAll(calls: seq<ToolCall>, round: Round) returns (slots: seq<Slot>, ghost peak: nat)
    ensures |slots| == |calls|
    ensures forall k :: 0 <= k < |calls| ==> slots[k] == Finished(round.Joined(calls[k], k))
    ensures peak <= MAX_CONCURRENT_TOOL_CALLS
  {
    slots := seq(|calls|, i => Waiting);
    peak := 0;
    var permits := MAX_CONCURRENT_TOOL_CALLS;
    AllWaiting(slots);
    while exists i :: 0 <= i < |slots| && !slots[i].Finished?
      invariant |slots| == |calls|
      invariant 0 <= permits && permits + Count(slots) == MAX_CONCURRENT_TOOL_CALLS
      invariant Count(slots) <= peak <= MAX_CONCURRENT_TOOL_CALLS
      invariant forall k :: 0 <= k < |calls| && slots[k].Finished? ==> slots[k] == Finished(round.Joined(calls[k], k))
      decreases Work(slots)
    {
      if permits == 0 {
        SomeRuns(slots);
      }
      var i :| 0 <= i < |slots| && (slots[i].Running? || (slots[i].Waiting? && permits > 0));
      if slots[i].Waiting? {
        UpdateSlot(slots, i, Running);
        permits := permits - 1;
        slots := slots[i := Running];
        peak := if Count(slots) > peak then Count(slots) else peak;
      } else {
        var result := RunTask(calls[i], i, round);
        UpdateSlot(slots, i, Finished(result));
        permits := permits + 1;
        slots := slots[i := Finished(result)];
      }
    }
  }

  lemma {:induction false} AllWaiting(slots: seq<Slot>)
    requires forall i :: 0 <= i < |slots| ==> slots[i].Waiting?
    ensures Count(slots) == 0
  {
    if slots != [] {
      AllWaiting(slots[..|slots| - 1]);
    }
  }

  method RunTask(call: ToolCall, k: nat, round: Round) returns (r: Execution)
    ensures r == round.Joined(call, k)
  {
    var panic := round.panic(k);
    if panic.Some? {
      return Err(Error(Transient, "task panicked: " + panic.value));
    }
    r := ExecuteWithRetries(call, round.Attempts(k), round.maxRetries);
  }

  /** One outcome per call, in the order of the calls, however the tasks were scheduled. */
  method ExecuteToolsParallel(calls: seq<ToolCall>, round: Round) returns (results: seq<CallOutcome>)
    ensures results == Outcomes(calls, round)
  {
    if |calls| == 1 {
      var result := ExecuteWithRetries(calls[0], round.Attempts(0), round.maxRetries);
      return [CallOutcome(calls[0].name, calls[0].id, result)];
    }
    var slots, peak := RunAll(calls, round);
    results := [];
    for i := 0 to |slots|
      invariant results == Outcomes(calls, round)[..i]
    {
      results := results + [CallOutcome(calls[i].name, calls[i].id, slots[i].result)];
    }
  }
}

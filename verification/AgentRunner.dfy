/** The agent loop (crates/rustykrab-agent/src/runner.rs): `run` and its streaming twin.

    The model's replies, the tools and the session's expiry are arbitrary, indexed by the provider
    call, the round and the attempt they answer.  Both loops are proved to build the same history,
    `Whole`; what that history and the emitted events promise is proved about `Whole`. */
module AgentRunner {
  import opened Options
  import opened Seqs
  import opened Decimals
  import opened Json
  import opened Messages
  import opened ToolExecution
  import L = Lines

  datatype Reply = Reply(message: Message, stop: StopReason)

  datatype AgentEvent =
    | TextDelta(text: string)
    | ToolCallStart(toolName: string, callId: string)
    | ToolCallEnd(toolName: string, callId: string, success: bool, errorMessage: Option<string>)
    | Reflecting
    | Done

  datatype Config = Config(
    maxIterations: nat,
    softIterationWarning: nat,
    maxConsecutiveErrors: nat,
    maxToolRetries: nat)

  type Ending = Outcome<(), Error>

  /** Everything outside the loop: the n-th provider call and the text it streams, whether the session
      has expired at the n-th check, the attempts of the k-th call of a round, and panics. */
  datatype World = World(
    replies: nat -> Outcome<Reply, Error>,
    deltas: nat -> seq<string>,
    expired: nat -> bool,
    attempt: (nat, nat, nat) -> Attempt,
    panic: (nat, nat) -> Option<string>)
  {
    function RoundOf(i: nat, maxRetries: nat): Round {
      Round((k: nat, n: nat) => attempt(i, k, n), (k: nat) => panic(i, k), maxRetries)
    }
  }

  // ---- Messages the loop writes ------------------------------------------------------------

  function Note(role: Role, text: string): Message {
    Message(role, Text(text))
  }

  function Warning(i: nat, max: nat): Message {
    Note(System, "[Warning: " + PrintNat(i) + "/" + PrintNat(max) + " iterations used.]")
  }

  function Escalation(max: nat): Message {
    Note(User, "You have reached the iteration limit (" + PrintNat(max)
         + " iterations). Summarize what you accomplished and what remains.")
  }

  const CONTINUE := Note(User, "Continue.")
  const RETRY := Note(User, "Your previous response indicated a tool call but none was found. Please retry.")

  /** The first line, cut to 200 characters. */
  function SanitizeError(text: string): string {
    var lines := L.LinesOf(text, '\n', '\r');
    var first := if lines == [] then text else lines[0];
    if |first| <= 200 then first else first[..200]
  }

  function ResultMessage(o: CallOutcome): Message {
    match o.result
    case Ok(tr) => Message(Tool, Result(tr))
    case Err(e) =>
      Message(Tool, Result(ToolResult(o.callId, Object([("error", String(SanitizeError(e.text)))]), true)))
  }

  function ResultMessages(outcomes: seq<CallOutcome>): (r: seq<Message>)
    ensures |r| == |outcomes| && forall k :: 0 <= k < |r| ==> r[k] == ResultMessage(outcomes[k])
  {
    seq(|outcomes|, k requires 0 <= k < |outcomes| => ResultMessage(outcomes[k]))
  }

  /** A failed call, or one whose output reports an error. */
  predicate Troubled(o: CallOutcome) {
    match o.result
    case Ok(tr) => Get(tr.output, "error").Some?
    case Err(_) => true
  }

  predicate HadErrors(outcomes: seq<CallOutcome>) {
    exists k :: 0 <= k < |outcomes| && Troubled(outcomes[k])
  }

  // ---- Reflection --------------------------------------------------------------------------

  /** The error text of a failed tool result. */
  function ErrorText(m: Message): Option<string> {
    if m.content.Result? && m.content.result.isError then
      match Get(m.content.result.output, "error")
      case Some(String(s)) => Some(s)
      case _ => None
    else None
  }

  /** The latest errors, latest first: at most 3 from the last `window` of the first `n` messages, `got`
      having been found. */
  function RecentErrors(messages: seq<Message>, n: nat, window: nat, got: nat): seq<string>
    requires n <= |messages|
  {
    if n == 0 || window == 0 || got >= 3 then []
    else
      match ErrorText(messages[n - 1])
      case Some(s) => [s] + RecentErrors(messages, n - 1, window - 1, got + 1)
      case None => RecentErrors(messages, n - 1, window - 1, got)
  }

  function Numbered(errors: seq<string>, from: nat): string
    decreases |errors|
  {
    if errors == [] then ""
    else "  " + PrintNat(from) + ". " + errors[0] + "\n" + Numbered(errors[1..], from + 1)
  }

  function Reflection(messages: seq<Message>): Message {
    var errors := RecentErrors(messages, |messages|, 10, 0);
    Note(User, "Multiple consecutive tool calls have failed."
         + (if errors == [] then "" else "\nRecent errors:\n" + Numbered(errors, 1))
         + "Try a different approach.")
  }

  // ---- The specification -------------------------------------------------------------------

  /** What one iteration does: the messages and events it adds, and how the loop goes on. */
  datatype Next = Stop(ending: Ending) | Again(errors: nat)
  datatype Turn = Turn(added: seq<Message>, events: seq<AgentEvent>, calls: nat, next: Next)

  function Deltas(texts: seq<string>): (r: seq<AgentEvent>)
    ensures |r| == |texts| && forall k :: 0 <= k < |r| ==> r[k] == TextDelta(texts[k])
  {
    seq(|texts|, k requires 0 <= k < |texts| => TextDelta(texts[k]))
  }

  function Starts(calls: seq<ToolCall>): (r: seq<AgentEvent>)
    ensures |r| == |calls| && forall k :: 0 <= k < |r| ==> r[k] == ToolCallStart(calls[k].name, calls[k].id)
  {
    seq(|calls|, k requires 0 <= k < |calls| => ToolCallStart(calls[k].name, calls[k].id))
  }

  function EndOf(o: CallOutcome): AgentEvent {
    match o.result
    case Ok(_) => ToolCallEnd(o.name, o.callId, true, None)
    case Err(e) => ToolCallEnd(o.name, o.callId, false, Some(SanitizeError(e.text)))
  }

  function Ends(outcomes: seq<CallOutcome>): (r: seq<AgentEvent>)
    ensures |r| == |outcomes| && forall k :: 0 <= k < |r| ==> r[k] == EndOf(outcomes[k])
  {
    seq(|outcomes|, k requires 0 <= k < |outcomes| => EndOf(outcomes[k]))
  }

  function Warnings(cfg: Config, i: nat): seq<Message> {
    if cfg.softIterationWarning > 0 && i == cfg.softIterationWarning then [Warning(i, cfg.maxIterations)] else []
  }

  /** Do the outcomes of this round call for a reflection? */
  predicate Reflects(cfg: Config, outcomes: seq<CallOutcome>, errors: nat) {
    HadErrors(outcomes) && errors + 1 >= cfg.maxConsecutiveErrors
  }

  /** The tool part of an iteration, after the assistant's message at the end of `history`. */
  function ToolTurn(w: World, cfg: Config, i: nat, history: seq<Message>, calls: seq<ToolCall>, errors: nat): Turn {
    var outcomes := Outcomes(calls, w.RoundOf(i, cfg.maxToolRetries));
    var results := ResultMessages(outcomes);
    var reflects := Reflects(cfg, outcomes, errors);
    Turn(results + (if reflects then [Reflection(history + results)] else []),
         Starts(calls) + Ends(outcomes) + (if reflects then [Reflecting] else []),
         1,
         Again(if HadErrors(outcomes) && !reflects then errors + 1 else 0))
  }

  /** What follows a reply at the end of `history`. */
  function ReplyTurn(w: World, cfg: Config, i: nat, history: seq<Message>, reply: Reply, errors: nat): Turn {
    if reply.message.content.HasToolCalls() then
      ToolTurn(w, cfg, i, history, reply.message.content.ToolCalls(), errors)
    else if reply.stop == MaxTokens then Turn([CONTINUE], [], 1, Again(errors))
    else if reply.stop == EndTurn then Turn([], [Done], 1, Stop(Ok(())))
    else Turn([RETRY], [], 1, Again(errors))
  }

  function TurnOf(w: World, cfg: Config, i: nat, before: seq<Message>, errors: nat): Turn {
    if w.expired(i + 1) then Turn([], [], 0, Stop(Err(Error(Auth, "session expired during execution"))))
    else
      var warned := Warnings(cfg, i);
      match w.replies(i)
      case Err(e) => Turn(warned, Deltas(w.deltas(i)), 1, Stop(Err(e)))
      case Ok(reply) =>
        var said := warned + [reply.message];
        var t := ReplyTurn(w, cfg, i, before + said, reply, errors);
        Turn(said + t.added, Deltas(w.deltas(i)) + t.events, 1, t.next)
  }

  /** What the rest of a run adds.  `closing` is the reply to the final request, which offers no tools. */
  datatype Rest = Rest(body: seq<Message>, closing: seq<Message>, events: seq<AgentEvent>, calls: nat, ending: Ending)

  function After(t: Turn, rest: Rest): Rest {
    Rest(t.added + rest.body, rest.closing, t.events + rest.events, t.calls + rest.calls, rest.ending)
  }

  /** The final request, without tools, after `note`. */
  function Closing(answer: Outcome<Reply, Error>, texts: seq<string>, note: Message): Rest {
    match answer
    case Err(e) => Rest([note], [], Deltas(texts), 1, Err(e))
    case Ok(reply) => Rest([note], [reply.message], Deltas(texts) + [Done], 1, Ok(()))
  }

  function Final(w: World, cfg: Config): Rest {
    Closing(w.replies(cfg.maxIterations), w.deltas(cfg.maxIterations), Escalation(cfg.maxIterations))
  }

  // What the i-th iteration does after a history, with so many errors in a row.
  type Turner = (nat, seq<Message>, nat) -> Turn

  function Turns(w: World, cfg: Config): Turner {
    (i: nat, before: seq<Message>, errors: nat) => TurnOf(w, cfg, i, before, errors)
  }

  function Loop(turn: Turner, final: Rest, max: nat, i: nat, before: seq<Message>, errors: nat): Rest
    requires i <= max
    decreases max - i
  {
    if i == max then final
    else
      var t := turn(i, before, errors);
      match t.next
      case Stop(ending) => Rest(t.added, [], t.events, t.calls, ending)
      case Again(e) => After(t, Loop(turn, final, max, i + 1, before + t.added, e))
  }

  function Whole(w: World, cfg: Config, before: seq<Message>): Rest {
    if w.expired(0) then Rest([], [], [], 0, Err(Error(Auth, "session has expired")))
    else Loop(Turns(w, cfg), Final(w, cfg), cfg.maxIterations, 0, before, 0)
  }

  // ---- The two loops -----------------------------------------------------------------------

  class Conversation {
    var messages: seq<Message>
  }

  /** What the streaming caller's callback has been given. */
  class EventLog {
    var events: seq<AgentEvent>

    method Emit(e: AgentEvent)
      modifies this
      ensures events == old(events) + [e]
    {
      events := events + [e];
    }
  }

  /** Where a loop stands after adding `done`: the rest of the run completes `whole`. */
  ghost predicate Underway(turn: Turner, final: Rest, max: nat, start: seq<Message>, whole: Rest,
                           done: Turn, i: nat, errors: nat)
  {
    i <= max && whole == After(done, Loop(turn, final, max, i, start + done.added, errors))
  }

  /** One more iteration: what is done grows by the turn. */
  function Joined(done: Turn, t: Turn): Turn {
    Turn(done.added + t.added, done.events + t.events, done.calls + t.calls, t.next)
  }

  lemma {:induction false} AfterJoined(done: Turn, t: Turn, rest: Rest)
    ensures After(done, After(t, rest)) == After(Joined(done, t), rest)
  {
    Assoc(done.added, t.added, rest.body);
    Assoc(done.events, t.events, rest.events);
  }

  lemma {:induction false} Advance(turn: Turner, final: Rest, max: nat, start: seq<Message>, whole: Rest,
        done: Turn, i: nat, errors: nat)
    requires i < max && Underway(turn, final, max, start, whole, done, i, errors)
    ensures
      var t := turn(i, start + done.added, errors);
      var now := Joined(done, t);
      && start + now.added == (start + done.added) + t.added
      && match t.next
         case Stop(ending) => whole == Rest(now.added, [], now.events, now.calls, ending)
         case Again(e) => Underway(turn, final, max, start, whole, now, i + 1, e)
  {
    var t := turn(i, start + done.added, errors);
    Assoc(start, done.added, t.added);
    match t.next
    case Stop(ending) =>
    case Again(e) => AfterJoined(done, t, Loop(turn, final, max, i + 1, start + done.added + t.added, e));
  }

  const NOTHING_DONE := Turn([], [], 0, Again(0))

  lemma {:induction false} Begin(turn: Turner, final: Rest, max: nat, start: seq<Message>, whole: Rest)
    requires whole == Loop(turn, final, max, 0, start, 0)
    ensures Underway(turn, final, max, start, whole, NOTHING_DONE, 0, 0)
  {
    assert start + [] == start;
    assert [] + whole.body == whole.body && [] + whole.events == whole.events;
  }

  /** At the cap the final request completes the run. */
  lemma {:induction false} Finish(turn: Turner, final: Rest, max: nat, start: seq<Message>, heard: seq<AgentEvent>,
        whole: Rest, done: Turn, errors: nat)
    requires Underway(turn, final, max, start, whole, done, max, errors)
    ensures start + whole.body == start + done.added + final.body
    ensures heard + whole.events == heard + done.events + final.events
    ensures whole.closing == final.closing && whole.ending == final.ending && whole.calls == done.calls + final.calls
  {
    Assoc(start, done.added, final.body);
    Assoc(heard, done.events, final.events);
  }

  lemma {:induction false} FourParts<T>(a: seq<T>, b: seq<T>, c: seq<T>, d: seq<T>)
    ensures a + b + c + d == a + (b + c + d)
  {
  }

  class AgentRunner {
    const w: World
    const cfg: Config

    constructor (w: World, cfg: Config)
      ensures this.w == w && this.cfg == cfg
    {
      this.w := w;
      this.cfg := cfg;
    }

    method CollectErrors(messages: seq<Message>) returns (recentErrors: seq<string>)
      ensures recentErrors == RecentErrors(messages, |messages|, 10, 0)
    {
      recentErrors := [];
      var left, window := |messages|, 10;
      while left > 0 && window > 0 && |recentErrors| < 3
        invariant 0 <= left <= |messages| && 0 <= window
        invariant |recentErrors| <= 3
        invariant RecentErrors(messages, |messages|, 10, 0)
          == recentErrors + RecentErrors(messages, left, window, |recentErrors|)
      {
        left := left - 1;
        window := window - 1;
        var text := ErrorText(messages[left]);
        if text.Some? {
          Assoc(recentErrors, [text.value], RecentErrors(messages, left, window, |recentErrors| + 1));
          recentErrors := recentErrors + [text.value];
        }
      }
    }

    method InjectReflection(conv: Conversation)
      modifies conv
      ensures conv.messages == old(conv.messages) + [Reflection(old(conv.messages))]
    {
      var recentErrors := CollectErrors(conv.messages);
      var text := "Multiple consecutive tool calls have failed.";
      if recentErrors != [] {
        text := text + ("\nRecent errors:\n" + Numbered(recentErrors, 1));
      } else {
        assert text + "" == text;
      }
      text := text + "Try a different approach.";
      conv.messages := conv.messages + [Note(User, text)];
    }

    method AppendResults(conv: Conversation, results: seq<CallOutcome>)
      modifies conv
      ensures conv.messages == old(conv.messages) + ResultMessages(results)
    {
      for k := 0 to |results|
        invariant conv.messages == old(conv.messages) + ResultMessages(results)[..k]
      {
        conv.messages := conv.messages + [ResultMessage(results[k])];
      }
    }

    /** Count a round's errors, and reflect after too many bad rounds in a row. */
    method NoteErrors(conv: Conversation, results: seq<CallOutcome>, errors: nat) returns (consecutive: nat)
      modifies conv
      ensures conv.messages
        == old(conv.messages) + if Reflects(cfg, results, errors) then [Reflection(old(conv.messages))] else []
      ensures consecutive == if HadErrors(results) && !Reflects(cfg, results, errors) then errors + 1 else 0
    {
      consecutive := errors;
      if HadErrors(results) {
        consecutive := consecutive + 1;
        if consecutive >= cfg.maxConsecutiveErrors {
          InjectReflection(conv);
          consecutive := 0;
        }
      } else {
        consecutive := 0;
      }
    }

    /** Run the calls and append one result message each. */
    method HandleToolCalls(conv: Conversation, calls: seq<ToolCall>, i: nat, errors: nat) returns (consecutive: nat)
      modifies conv
      ensures
        var t := ToolTurn(w, cfg, i, old(conv.messages), calls, errors);
        conv.messages == old(conv.messages) + t.added && t.next == Again(consecutive)
    {
      var results := ExecuteToolsParallel(calls, w.RoundOf(i, cfg.maxToolRetries));
      AppendResults(conv, results);
      consecutive := NoteErrors(conv, results, errors);
    }

    /** The part of an iteration after the reply has been appended. */
    method Respond(conv: Conversation, reply: Reply, i: nat, errors: nat) returns (next: Next)
      modifies conv
      ensures
        var t := ReplyTurn(w, cfg, i, old(conv.messages), reply, errors);
        conv.messages == old(conv.messages) + t.added && next == t.next
    {
      if reply.message.content.HasToolCalls() {
        var consecutive := HandleToolCalls(conv, reply.message.content.ToolCalls(), i, errors);
        return Again(consecutive);
      }
      if reply.stop == MaxTokens {
        conv.messages := conv.messages + [CONTINUE];
        return Again(errors);
      }
      if reply.stop == EndTurn {
        return Stop(Ok(()));
      }
      conv.messages := conv.messages + [RETRY];
      next := Again(errors);
    }

    /** The body of the loop of `run`. */
    method Iterate(conv: Conversation, i: nat, errors: nat) returns (next: Next, ghost calls: nat)
      modifies conv
      ensures
        var t := TurnOf(w, cfg, i, old(conv.messages), errors);
        conv.messages == old(conv.messages) + t.added && next == t.next && calls == t.calls
    {
      calls := 0;
      if w.expired(i + 1) {
        return Stop(Err(Error(Auth, "session expired during execution"))), 0;
      }
      if cfg.softIterationWarning > 0 && i == cfg.softIterationWarning {
        conv.messages := conv.messages + [Warning(i, cfg.maxIterations)];
      }
      calls := 1;
      var answer := w.replies(i);
      if answer.Err? {
        return Stop(Err(answer.error)), calls;
      }
      ghost var said := Warnings(cfg, i) + [answer.value.message];
      conv.messages := conv.messages + [answer.value.message];
      assert conv.messages == old(conv.messages) + said;
      next := Respond(conv, answer.value, i, errors);
      Assoc(old(conv.messages), said,
            ReplyTurn(w, cfg, i, old(conv.messages) + said, answer.value, errors).added);
    }

    /** One pass of the loop, seen from the whole run. */
    method Pass(conv: Conversation, ghost start: seq<Message>, ghost final: Rest,
                ghost whole: Rest, ghost done: Turn, i: nat, errors: nat)
      returns (next: Next, ghost calls: nat, ghost now: Turn)
      requires i < cfg.maxIterations && conv.messages == start + done.added
      requires Underway(Turns(w, cfg), final, cfg.maxIterations, start, whole, done, i, errors)
      modifies conv
      ensures conv.messages == start + now.added && calls == now.calls - done.calls
      ensures match next
        case Stop(ending) => whole == Rest(now.added, [], now.events, now.calls, ending)
        case Again(e) => Underway(Turns(w, cfg), final, cfg.maxIterations, start, whole, now, i + 1, e)
    {
      Advance(Turns(w, cfg), final, cfg.maxIterations, start, whole, done, i, errors);
      now := Joined(done, TurnOf(w, cfg, i, conv.messages, errors));
      next, calls := Iterate(conv, i, errors);
    }

    /** The request without tools once the cap is reached. */
    method Escalate(conv: Conversation) returns (ending: Ending, ghost calls: nat)
      modifies conv
      ensures
        var f := Final(w, cfg);
        && conv.messages == old(conv.messages) + f.body + f.closing
        && ending == f.ending && calls == f.calls
    {
      conv.messages := conv.messages + [Escalation(cfg.maxIterations)];
      calls := 1;
      var answer := w.replies(cfg.maxIterations);
      if answer.Err? {
        return Err(answer.error), calls;
      }
      conv.messages := conv.messages + [answer.value.message];
      ending := Ok(());
    }

    /** The end of a run that reaches the cap. */
    method Close(conv: Conversation, ghost start: seq<Message>, ghost whole: Rest, ghost done: Turn, ghost errors: nat)
      returns (ending: Ending, ghost calls: nat)
      requires conv.messages == start + done.added
      requires Underway(Turns(w, cfg), Final(w, cfg), cfg.maxIterations, start, whole, done, cfg.maxIterations, errors)
      modifies conv
      ensures conv.messages == start + whole.body + whole.closing
      ensures ending == whole.ending && done.calls + calls == whole.calls
    {
      Finish(Turns(w, cfg), Final(w, cfg), cfg.maxIterations, start, [], whole, done, errors);
      ending, calls := Escalate(conv);
    }

    /** The loop of `run`; without an ending it got to the cap. */
    method Iterations(conv: Conversation, ghost start: seq<Message>, ghost final: Rest, ghost whole: Rest)
      returns (stopped: Option<Ending>, ghost calls: nat, ghost done: Turn, ghost errors: nat)
      requires conv.messages == start
      requires Underway(Turns(w, cfg), final, cfg.maxIterations, start, whole, NOTHING_DONE, 0, 0)
      modifies conv
      ensures conv.messages == start + done.added
      ensures calls == done.calls
      ensures match stopped
        case Some(ending) => whole == Rest(done.added, [], done.events, done.calls, ending)
        case None => Underway(Turns(w, cfg), final, cfg.maxIterations, start, whole, done, cfg.maxIterations, errors)
    {
      calls, done := 0, NOTHING_DONE;
      var consecutive := 0;
      assert start + [] == start;
      for i := 0 to cfg.maxIterations
        invariant conv.messages == start + done.added && calls == done.calls
        invariant Underway(Turns(w, cfg), final, cfg.maxIterations, start, whole, done, i, consecutive)
      {
        var next;
        ghost var n;
        next, n, done := Pass(conv, start, final, whole, done, i, consecutive);
        calls := calls + n;
        if next.Stop? {
          return Some(next.ending), calls, done, consecutive;
        }
        consecutive := next.errors;
      }
      stopped, errors := None, consecutive;
    }

    method Run(conv: Conversation) returns (ending: Ending, ghost calls: nat)
      modifies conv
      ensures
        var whole := Whole(w, cfg, old(conv.messages));
        && conv.messages == old(conv.messages) + whole.body + whole.closing
        && ending == whole.ending && calls == whole.calls
    {
      if w.expired(0) {
        return Err(Error(Auth, "session has expired")), 0;
      }
      ghost var start, whole := conv.messages, Whole(w, cfg, conv.messages);
      Begin(Turns(w, cfg), Final(w, cfg), cfg.maxIterations, start, whole);
      var stopped;
      ghost var done, errors, m;
      stopped, calls, done, errors := Iterations(conv, start, Final(w, cfg), whole);
      if stopped.Some? {
        return stopped.value, calls;
      }
      ending, m := Close(conv, start, whole, done, errors);
      calls := calls + m;
    }

    // ---- `run_streaming` -------------------------------------------------------------------

    /** `provider.chat_stream`: the text deltas go to the callback, and then the reply is there. */
    method ChatStream(log: EventLog, n: nat) returns (answer: Outcome<Reply, Error>)
      modifies log
      ensures log.events == old(log.events) + Deltas(w.deltas(n))
      ensures answer == w.replies(n)
    {
      var texts := w.deltas(n);
      for k := 0 to |texts|
        invariant log.events == old(log.events) + Deltas(texts)[..k]
      {
        log.Emit(TextDelta(texts[k]));
      }
      answer := w.replies(n);
    }

    method AnnounceCalls(log: EventLog, calls: seq<ToolCall>)
      modifies log
      ensures log.events == old(log.events) + Starts(calls)
    {
      for k := 0 to |calls|
        invariant log.events == old(log.events) + Starts(calls)[..k]
      {
        log.Emit(ToolCallStart(calls[k].name, calls[k].id));
      }
    }

    method AppendResultsStreaming(conv: Conversation, log: EventLog, results: seq<CallOutcome>)
      modifies conv, log
      ensures conv.messages == old(conv.messages) + ResultMessages(results)
      ensures log.events == old(log.events) + Ends(results)
    {
      for k := 0 to |results|
        invariant conv.messages == old(conv.messages) + ResultMessages(results)[..k]
        invariant log.events == old(log.events) + Ends(results)[..k]
      {
        var o := results[k];
        match o.result {
          case Ok(tr) =>
            log.Emit(ToolCallEnd(o.name, o.callId, true, None));
            conv.messages := conv.messages + [Message(Tool, Result(tr))];
          case Err(e) =>
            var text := SanitizeError(e.text);
            log.Emit(ToolCallEnd(o.name, o.callId, false, Some(text)));
            conv.messages := conv.messages
              + [Message(Tool, Result(ToolResult(o.callId, Object([("error", String(text))]), true)))];
        }
      }
    }

    method NoteErrorsStreaming(conv: Conversation, log: EventLog, results: seq<CallOutcome>, errors: nat)
      returns (consecutive: nat)
      modifies conv, log
      ensures conv.messages
        == old(conv.messages) + if Reflects(cfg, results, errors) then [Reflection(old(conv.messages))] else []
      ensures log.events == old(log.events) + if Reflects(cfg, results, errors) then [Reflecting] else []
      ensures consecutive == if HadErrors(results) && !Reflects(cfg, results, errors) then errors + 1 else 0
    {
      consecutive := errors;
      if HadErrors(results) {
        consecutive := consecutive + 1;
        if consecutive >= cfg.maxConsecutiveErrors {
          log.Emit(Reflecting);
          InjectReflection(conv);
          consecutive := 0;
        }
      } else {
        consecutive := 0;
      }
    }

    method HandleToolCallsStreaming(conv: Conversation, log: EventLog, calls: seq<ToolCall>, i: nat, errors: nat)
      returns (consecutive: nat)
      modifies conv, log
      ensures
        var t := ToolTurn(w, cfg, i, old(conv.messages), calls, errors);
        && conv.messages == old(conv.messages) + t.added && t.next == Again(consecutive)
        && log.events == old(log.events) + t.events
    {
      ghost var history, heard := conv.messages, log.events;
      AnnounceCalls(log, calls);
      var results := ExecuteToolsParallel(calls, w.RoundOf(i, cfg.maxToolRetries));
      AppendResultsStreaming(conv, log, results);
      consecutive := NoteErrorsStreaming(conv, log, results, errors);
      ghost var reflects := Reflects(cfg, results, errors);
      ghost var noted := history + ResultMessages(results);
      Assoc(history, ResultMessages(results), if reflects then [Reflection(noted)] else []);
      FourParts(heard, Starts(calls), Ends(results), if reflects then [Reflecting] else []);
    }

    method RespondStreaming(conv: Conversation, log: EventLog, reply: Reply, i: nat, errors: nat) returns (next: Next)
      modifies conv, log
      ensures
        var t := ReplyTurn(w, cfg, i, old(conv.messages), reply, errors);
        && conv.messages == old(conv.messages) + t.added && next == t.next
        && log.events == old(log.events) + t.events
    {
      if reply.message.content.HasToolCalls() {
        var consecutive := HandleToolCallsStreaming(conv, log, reply.message.content.ToolCalls(), i, errors);
        return Again(consecutive);
      }
      if reply.stop == MaxTokens {
        conv.messages := conv.messages + [CONTINUE];
        return Again(errors);
      }
      if reply.stop == EndTurn {
        log.Emit(Done);
        return Stop(Ok(()));
      }
      conv.messages := conv.messages + [RETRY];
      next := Again(errors);
    }

    /** The body of the loop of `run_streaming`. */
    method IterateStreaming(conv: Conversation, log: EventLog, i: nat, errors: nat) returns (next: Next, ghost calls: nat)
      modifies conv, log
      ensures
        var t := TurnOf(w, cfg, i, old(conv.messages), errors);
        && conv.messages == old(conv.messages) + t.added && next == t.next && calls == t.calls
        && log.events == old(log.events) + t.events
    {
      calls := 0;
      if w.expired(i + 1) {
        return Stop(Err(Error(Auth, "session expired during execution"))), 0;
      }
      if cfg.softIterationWarning > 0 && i == cfg.softIterationWarning {
        conv.messages := conv.messages + [Warning(i, cfg.maxIterations)];
      }
      calls := 1;
      var answer := ChatStream(log, i);
      if answer.Err? {
        return Stop(Err(answer.error)), calls;
      }
      ghost var said := Warnings(cfg, i) + [answer.value.message];
      conv.messages := conv.messages + [answer.value.message];
      assert conv.messages == old(conv.messages) + said;
      ghost var t := ReplyTurn(w, cfg, i, old(conv.messages) + said, answer.value, errors);
      next := RespondStreaming(conv, log, answer.value, i, errors);
      Assoc(old(conv.messages), said, t.added);
      Assoc(old(log.events), Deltas(w.deltas(i)), t.events);
    }

    method PassStreaming(conv: Conversation, log: EventLog, ghost start: seq<Message>, ghost heard: seq<AgentEvent>,
                         ghost final: Rest, ghost whole: Rest, ghost done: Turn, i: nat, errors: nat)
      returns (next: Next, ghost calls: nat, ghost now: Turn)
      requires i < cfg.maxIterations
      requires conv.messages == start + done.added && log.events == heard + done.events
      requires Underway(Turns(w, cfg), final, cfg.maxIterations, start, whole, done, i, errors)
      modifies conv, log
      ensures conv.messages == start + now.added && log.events == heard + now.events
      ensures calls == now.calls - done.calls
      ensures match next
        case Stop(ending) => whole == Rest(now.added, [], now.events, now.calls, ending)
        case Again(e) => Underway(Turns(w, cfg), final, cfg.maxIterations, start, whole, now, i + 1, e)
    {
      Advance(Turns(w, cfg), final, cfg.maxIterations, start, whole, done, i, errors);
      ghost var t := TurnOf(w, cfg, i, conv.messages, errors);
      now := Joined(done, t);
      next, calls := IterateStreaming(conv, log, i, errors);
      Assoc(heard, done.events, t.events);
    }

    method EscalateStreaming(conv: Conversation, log: EventLog) returns (ending: Ending, ghost calls: nat)
      modifies conv, log
      ensures
        var f := Final(w, cfg);
        && conv.messages == old(conv.messages) + f.body + f.closing && log.events == old(log.events) + f.events
        && ending == f.ending && calls == f.calls
    {
      conv.messages := conv.messages + [Escalation(cfg.maxIterations)];
      calls := 1;
      var answer := ChatStream(log, cfg.maxIterations);
      if answer.Err? {
        return Err(answer.error), calls;
      }
      conv.messages := conv.messages + [answer.value.message];
      log.Emit(Done);
      ending := Ok(());
    }

    method CloseStreaming(conv: Conversation, log: EventLog, ghost start: seq<Message>, ghost heard: seq<AgentEvent>,
                          ghost whole: Rest, ghost done: Turn, ghost errors: nat)
      returns (ending: Ending, ghost calls: nat)
      requires conv.messages == start + done.added && log.events == heard + done.events
      requires Underway(Turns(w, cfg), Final(w, cfg), cfg.maxIterations, start, whole, done, cfg.maxIterations, errors)
      modifies conv, log
      ensures conv.messages == start + whole.body + whole.closing && log.events == heard + whole.events
      ensures ending == whole.ending && done.calls + calls == whole.calls
    {
      Finish(Turns(w, cfg), Final(w, cfg), cfg.maxIterations, start, heard, whole, done, errors);
      ending, calls := EscalateStreaming(conv, log);
    }

    method IterationsStreaming(conv: Conversation, log: EventLog, ghost start: seq<Message>, ghost heard: seq<AgentEvent>,
                               ghost final: Rest, ghost whole: Rest)
      returns (stopped: Option<Ending>, ghost calls: nat, ghost done: Turn, ghost errors: nat)
      requires conv.messages == start && log.events == heard
      requires Underway(Turns(w, cfg), final, cfg.maxIterations, start, whole, NOTHING_DONE, 0, 0)
      modifies conv, log
      ensures conv.messages == start + done.added && log.events == heard + done.events
      ensures calls == done.calls
      ensures match stopped
        case Some(ending) => whole == Rest(done.added, [], done.events, done.calls, ending)
        case None => Underway(Turns(w, cfg), final, cfg.maxIterations, start, whole, done, cfg.maxIterations, errors)
    {
      calls, done := 0, NOTHING_DONE;
      var consecutive := 0;
      assert start + [] == start && heard + [] == heard;
      for i := 0 to cfg.maxIterations
        invariant conv.messages == start + done.added && log.events == heard + done.events && calls == done.calls
        invariant Underway(Turns(w, cfg), final, cfg.maxIterations, start, whole, done, i, consecutive)
      {
        var next;
        ghost var n;
        next, n, done := PassStreaming(conv, log, start, heard, final, whole, done, i, consecutive);
        calls := calls + n;
        if next.Stop? {
          return Some(next.ending), calls, done, consecutive;
        }
        consecutive := next.errors;
      }
      stopped, errors := None, consecutive;
    }

    /** The same history, ending and provider calls as `Run`, and the events of `Whole`. */
    method RunStreaming(conv: Conversation, log: EventLog) returns (ending: Ending, ghost calls: nat)
      modifies conv, log
      ensures
        var whole := Whole(w, cfg, old(conv.messages));
        && conv.messages == old(conv.messages) + whole.body + whole.closing
        && log.events == old(log.events) + whole.events
        && ending == whole.ending && calls == whole.calls
    {
      if w.expired(0) {
        return Err(Error(Auth, "session has expired")), 0;
      }
      ghost var start, heard, whole := conv.messages, log.events, Whole(w, cfg, conv.messages);
      Begin(Turns(w, cfg), Final(w, cfg), cfg.maxIterations, start, whole);
      var stopped;
      ghost var done, errors, m;
      stopped, calls, done, errors := IterationsStreaming(conv, log, start, heard, Final(w, cfg), whole);
      if stopped.Some? {
        return stopped.value, calls;
      }
      ending, m := CloseStreaming(conv, log, start, heard, whole, done, errors);
      calls := calls + m;
    }
  }

  // ---- What a run promises -----------------------------------------------------------------

  /** The n messages after a message with n calls are its results, in order. */
  ghost predicate Answers(results: seq<Message>, calls: seq<ToolCall>) {
    |results| == |calls|
    && forall k :: 0 <= k < |calls| ==>
         results[k].role == Tool && results[k].content.Result? && results[k].content.result.callId == calls[k].id
  }

  /** Every message with tool calls is followed at once by exactly its results, and no result stands
      anywhere else. */
  ghost predicate Paired(messages: seq<Message>)
    decreases |messages|
  {
    if messages == [] then true
    else if messages[0].content.HasToolCalls() then
      var calls := messages[0].content.ToolCalls();
      && |messages| > |calls| && Answers(messages[1..|calls| + 1], calls)
      && Paired(messages[|calls| + 1..])
    else !messages[0].content.Result? && Paired(messages[1..])
  }

  lemma {:induction false} PairedAppend(a: seq<Message>, b: seq<Message>)
    requires Paired(a) && Paired(b)
    ensures Paired(a + b)
    decreases |a|
  {
    if a == [] {
      assert a + b == b;
    } else {
      var n := if a[0].content.HasToolCalls() then |a[0].content.ToolCalls()| else 0;
      PairedAppend(a[n + 1..], b);
      AppendSlices(a, b, n);
    }
  }

  lemma {:induction false} AppendSlices<T>(a: seq<T>, b: seq<T>, n: nat)
    requires n < |a|
    ensures (a + b)[0] == a[0]
    ensures (a + b)[1..n + 1] == a[1..n + 1] && (a + b)[n + 1..] == a[n + 1..] + b
  {
  }

  lemma {:induction false} PairedOne(m: Message)
    requires !m.content.HasToolCalls() && !m.content.Result?
    ensures Paired([m])
  {
    assert [m][1..] == [];
  }

  /** A provider answers with an assistant's text or tool calls, not with a tool result. */
  ghost predicate WellSpoken(w: World) {
    forall n :: w.replies(n).Ok? ==> !w.replies(n).value.message.content.Result?
  }

  lemma {:induction false} OutcomeHasItsId(call: ToolCall, k: nat, round: Round, alone: bool)
    ensures round.Result(call, k, alone).Ok? ==> round.Result(call, k, alone).value.callId == call.id
  {
    var last := RetriesStopAtFirst(call, round.Attempts(k), 0, round.maxRetries);
  }

  lemma {:induction false} ResultsAnswer(calls: seq<ToolCall>, round: Round)
    ensures Answers(ResultMessages(Outcomes(calls, round)), calls)
  {
    var results := ResultMessages(Outcomes(calls, round));
    forall k | 0 <= k < |calls|
      ensures results[k].role == Tool && results[k].content.Result? && results[k].content.result.callId == calls[k].id
    {
      OutcomeHasItsId(calls[k], k, round, |calls| == 1);
    }
  }

  lemma {:induction false} AnsweredIsPaired(m: Message, results: seq<Message>)
    requires m.content.HasToolCalls() && Answers(results, m.content.ToolCalls())
    ensures Paired([m] + results)
  {
    var all := [m] + results;
    assert all[1..|results| + 1] == results && all[|results| + 1..] == [];
  }

  lemma {:induction false} NotesArePaired(notes: seq<Message>)
    requires |notes| <= 1 && forall k :: 0 <= k < |notes| ==> !notes[k].content.HasToolCalls() && !notes[k].content.Result?
    ensures Paired(notes)
  {
    if notes != [] {
      PairedOne(notes[0]);
      assert notes == [notes[0]];
    }
  }

  lemma {:induction false} ReplyIsPaired(w: World, cfg: Config, i: nat, history: seq<Message>, reply: Reply,
        errors: nat)
    requires !reply.message.content.Result?
    ensures Paired([reply.message] + ReplyTurn(w, cfg, i, history, reply, errors).added)
  {
    var m, t := reply.message, ReplyTurn(w, cfg, i, history, reply, errors);
    if m.content.HasToolCalls() {
      var calls, round := m.content.ToolCalls(), w.RoundOf(i, cfg.maxToolRetries);
      var results := ResultMessages(Outcomes(calls, round));
      var reflection := t.added[|results|..];
      ResultsAnswer(calls, round);
      AnsweredIsPaired(m, results);
      NotesArePaired(reflection);
      PairedAppend([m] + results, reflection);
      assert [m] + t.added == ([m] + results) + reflection;
    } else {
      PairedOne(m);
      NotesArePaired(t.added);
      PairedAppend([m], t.added);
    }
  }

  lemma {:induction false} TurnIsPaired(w: World, cfg: Config, i: nat, before: seq<Message>, errors: nat)
    requires WellSpoken(w)
    ensures Paired(TurnOf(w, cfg, i, before, errors).added)
  {
    var warned := Warnings(cfg, i);
    if warned != [] {
      PairedOne(warned[0]);
      assert warned == [warned[0]];
    }
    if !w.expired(i + 1) && w.replies(i).Ok? {
      var reply := w.replies(i).value;
      var said := warned + [reply.message];
      var t := ReplyTurn(w, cfg, i, before + said, reply, errors);
      ReplyIsPaired(w, cfg, i, before + said, reply, errors);
      PairedAppend(warned, [reply.message] + t.added);
      Assoc(warned, [reply.message], t.added);
    }
  }

  ghost predicate EveryTurn(turn: Turner, p: Turn -> bool) {
    forall i, before, errors :: p(turn(i, before, errors))
  }

  /** Whatever every iteration keeps, joined on to the rest of the run, the whole loop keeps. */
  lemma {:induction false} LoopKeeps(turn: Turner, final: Rest, max: nat, i: nat, before: seq<Message>, errors: nat,
                                     p: Turn -> bool, q: (Rest, nat) -> bool)
    requires i <= max && EveryTurn(turn, p) && q(final, max)
    requires forall t: Turn, k: nat, ending: Ending :: p(t) && k < max && t.next == Stop(ending) ==>
      q(Rest(t.added, [], t.events, t.calls, ending), k)
    requires forall t: Turn, rest: Rest, k: nat :: p(t) && k < max && t.next.Again? && q(rest, k + 1) ==> q(After(t, rest), k)
    ensures q(Loop(turn, final, max, i, before, errors), i)
    decreases max - i
  {
    if i < max {
      var t := turn(i, before, errors);
      assert p(t);
      if t.next.Again? {
        LoopKeeps(turn, final, max, i + 1, before + t.added, t.next.errors, p, q);
      }
    }
  }

  ghost predicate TurnPaired(t: Turn) {
    Paired(t.added) && (t.next.Again? ==> t.calls == 1)
  }

  ghost predicate RestPaired(r: Rest, left: int) {
    Paired(r.body) && |r.closing| <= 1 && (r.closing != [] ==> r.ending.Ok? && r.calls == left + 1)
  }

  lemma {:induction false} StopIsPaired(t: Turn, ending: Ending, left: int)
    requires TurnPaired(t)
    ensures RestPaired(Rest(t.added, [], t.events, t.calls, ending), left)
  {
  }

  lemma {:induction false} AfterIsPaired(t: Turn, rest: Rest, left: int)
    requires TurnPaired(t) && t.next.Again? && RestPaired(rest, left)
    ensures RestPaired(After(t, rest), left + 1)
  {
    PairedAppend(t.added, rest.body);
  }

  lemma {:induction false} LoopIsPaired(turn: Turner, final: Rest, max: nat, before: seq<Message>)
    requires RestPaired(final, 0)
    requires forall i, b, e :: TurnPaired(turn(i, b, e))
    ensures RestPaired(Loop(turn, final, max, 0, before, 0), max)
  {
    var p := (t: Turn) => TurnPaired(t);
    var q := (r: Rest, k: nat) => RestPaired(r, max - k);
    forall t, k: nat, ending | p(t) && k < max && t.next == Stop(ending)
      ensures q(Rest(t.added, [], t.events, t.calls, ending), k) {
      StopIsPaired(t, ending, max - k);
    }
    forall t, rest, k: nat | p(t) && k < max && t.next.Again? && q(rest, k + 1) ensures q(After(t, rest), k) {
      AfterIsPaired(t, rest, max - k - 1);
    }
    LoopKeeps(turn, final, max, 0, before, 0, p, q);
  }

  /** For every model, every tool and every schedule: each assistant message with n calls is followed
      at once by exactly n results, with matching ids in order.  Only the reply to the closing
      request without tools, which stands last, can be left unanswered. */
  lemma {:induction false} EveryCallIsAnswered(w: World, cfg: Config, before: seq<Message>)
    requires WellSpoken(w)
    ensures
      var r := Whole(w, cfg, before);
      && Paired(r.body)
      && |r.closing| <= 1
      && (r.closing != [] ==> r.ending.Ok? && r.calls == cfg.maxIterations + 1)
  {
    var max := cfg.maxIterations;
    forall i, b, e ensures TurnPaired(Turns(w, cfg)(i, b, e)) {
      TurnIsPaired(w, cfg, i, b, e);
    }
    PairedOne(Escalation(max));
    LoopIsPaired(Turns(w, cfg), Final(w, cfg), max, before);
  }
}

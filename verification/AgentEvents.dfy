/** The events a streaming run of the agent loop emits (crates/rustykrab-agent/src/runner.rs), and what
    they and the history promise together. */
module AgentEvents {
  import opened Options
  import opened Seqs
  import opened Json
  import opened Messages
  import opened ToolExecution
  import opened AgentRunner

  // ---- The events of a run -----------------------------------------------------------------

  function Collect<A, B>(f: A -> seq<B>, xs: seq<A>): seq<B> {
    if xs == [] then [] else f(xs[0]) + Collect(f, xs[1..])
  }

  lemma {:induction false} CollectAppend<A, B>(f: A -> seq<B>, xs: seq<A>, ys: seq<A>)
    ensures Collect(f, xs + ys) == Collect(f, xs) + Collect(f, ys)
    decreases |xs|
  {
    if xs == [] {
      assert xs + ys == ys;
    } else {
      CollectAppend(f, xs[1..], ys);
      assert (xs + ys)[1..] == xs[1..] + ys;
    }
  }

  lemma {:induction false} CollectNothing<A, B>(f: A -> seq<B>, xs: seq<A>)
    requires forall k :: 0 <= k < |xs| ==> f(xs[k]) == []
    ensures Collect(f, xs) == []
  {
    if xs != [] {
      CollectNothing(f, xs[1..]);
    }
  }

  lemma {:induction false} CollectEach<A, B>(f: A -> seq<B>, xs: seq<A>, ys: seq<B>)
    requires |xs| == |ys| && forall k :: 0 <= k < |xs| ==> f(xs[k]) == [ys[k]]
    ensures Collect(f, xs) == ys
  {
    if xs != [] {
      CollectEach(f, xs[1..], ys[1..]);
    }
  }

  lemma {:induction false} CollectOne<A, B>(f: A -> seq<B>, x: A)
    ensures Collect(f, [x]) == f(x)
  {
    assert [x][1..] == [];
    assert f(x) + [] == f(x);
  }

  type CallName = (string, string)

  function Started(e: AgentEvent): seq<CallName> {
    if e.ToolCallStart? then [(e.toolName, e.callId)] else []
  }

  function Ended(e: AgentEvent): seq<CallName> {
    if e.ToolCallEnd? then [(e.toolName, e.callId)] else []
  }

  function NameOf(c: ToolCall): CallName { (c.name, c.id) }

  function Names(calls: seq<ToolCall>): (r: seq<CallName>)
    ensures |r| == |calls| && forall k :: 0 <= k < |r| ==> r[k] == NameOf(calls[k])
  {
    seq(|calls|, k requires 0 <= k < |calls| => NameOf(calls[k]))
  }

  function Called(m: Message): seq<CallName> {
    Names(m.content.ToolCalls())
  }

  /** What an end event and a result message say about one call. */
  function Reported(e: AgentEvent): seq<(string, bool)> {
    if e.ToolCallEnd? then [(e.callId, e.success)] else []
  }

  function Recorded(m: Message): seq<(string, bool)> {
    if m.content.Result? then [(m.content.result.callId, !m.content.result.isError)] else []
  }

  function Streamed(e: AgentEvent): seq<string> {
    if e.TextDelta? then [e.text] else []
  }

  /** The deltas of `count` provider calls from the i-th on. */
  function DeltasFrom(w: World, i: nat, count: nat): seq<string>
    decreases count
  {
    if count == 0 then [] else w.deltas(i) + DeltasFrom(w, i + 1, count - 1)
  }

  /** Events and history of one stretch of a run tell the same story. */
  ghost predicate Tell(events: seq<AgentEvent>, added: seq<Message>) {
    && Collect(Started, events) == Collect(Called, added)
    && Collect(Ended, events) == Collect(Called, added)
    && Collect(Reported, events) == Collect(Recorded, added)
  }

  lemma {:induction false} TellAppend(e1: seq<AgentEvent>, a1: seq<Message>, e2: seq<AgentEvent>, a2: seq<Message>)
    requires Tell(e1, a1) && Tell(e2, a2)
    ensures Tell(e1 + e2, a1 + a2)
  {
    CollectAppend(Started, e1, e2);
    CollectAppend(Ended, e1, e2);
    CollectAppend(Reported, e1, e2);
    CollectAppend(Called, a1, a2);
    CollectAppend(Recorded, a1, a2);
  }

  /** Notes and text deltas say nothing about tools. */
  lemma {:induction false} QuietTells(events: seq<AgentEvent>, added: seq<Message>)
    requires forall k :: 0 <= k < |events| ==> !events[k].ToolCallStart? && !events[k].ToolCallEnd?
    requires forall k :: 0 <= k < |added| ==> !added[k].content.HasToolCalls() && !added[k].content.Result?
    ensures Tell(events, added)
  {
    CollectNothing(Started, events);
    CollectNothing(Ended, events);
    CollectNothing(Reported, events);
    CollectNothing(Called, added);
    CollectNothing(Recorded, added);
  }

  function Verdicts(outcomes: seq<CallOutcome>): (r: seq<(string, bool)>)
    ensures |r| == |outcomes| && forall k :: 0 <= k < |r| ==> r[k] == (outcomes[k].callId, outcomes[k].result.Ok?)
  {
    seq(|outcomes|, k requires 0 <= k < |outcomes| => (outcomes[k].callId, outcomes[k].result.Ok?))
  }

  lemma {:induction false} OutcomeIsRecorded(call: ToolCall, k: nat, round: Round, alone: bool)
    ensures
      var o := CallOutcome(call.name, call.id, round.Result(call, k, alone));
      Recorded(ResultMessage(o)) == [(o.callId, o.result.Ok?)]
  {
    var last := RetriesStopAtFirst(call, round.Attempts(k), 0, round.maxRetries);
  }

  lemma {:induction false} StartsTell(calls: seq<ToolCall>)
    ensures Collect(Started, Starts(calls)) == Names(calls)
    ensures Collect(Ended, Starts(calls)) == [] && Collect(Reported, Starts(calls)) == []
  {
    CollectEach(Started, Starts(calls), Names(calls));
    CollectNothing(Ended, Starts(calls));
    CollectNothing(Reported, Starts(calls));
  }

  lemma {:induction false} EndsTell(calls: seq<ToolCall>, outcomes: seq<CallOutcome>)
    requires |outcomes| == |calls|
    requires forall k :: 0 <= k < |calls| ==> outcomes[k].name == calls[k].name && outcomes[k].callId == calls[k].id
    ensures Collect(Ended, Ends(outcomes)) == Names(calls)
    ensures Collect(Started, Ends(outcomes)) == [] && Collect(Reported, Ends(outcomes)) == Verdicts(outcomes)
  {
    CollectEach(Ended, Ends(outcomes), Names(calls));
    CollectNothing(Started, Ends(outcomes));
    CollectEach(Reported, Ends(outcomes), Verdicts(outcomes));
  }

  lemma {:induction false} ResultsTell(calls: seq<ToolCall>, round: Round)
    ensures
      var outcomes := Outcomes(calls, round);
      && Collect(Called, ResultMessages(outcomes)) == []
      && Collect(Recorded, ResultMessages(outcomes)) == Verdicts(outcomes)
  {
    var outcomes := Outcomes(calls, round);
    var results := ResultMessages(outcomes);
    CollectNothing(Called, results);
    forall k | 0 <= k < |results| ensures Recorded(results[k]) == [Verdicts(outcomes)[k]] {
      OutcomeIsRecorded(calls[k], k, round, |calls| == 1);
    }
    CollectEach(Recorded, results, Verdicts(outcomes));
  }

  lemma {:induction false} RoundTells(m: Message, calls: seq<ToolCall>, round: Round)
    requires m.content.HasToolCalls() && m.content.ToolCalls() == calls
    ensures
      var outcomes := Outcomes(calls, round);
      Tell(Starts(calls) + Ends(outcomes), [m] + ResultMessages(outcomes))
  {
    var outcomes := Outcomes(calls, round);
    var starts, ends, results := Starts(calls), Ends(outcomes), ResultMessages(outcomes);
    StartsTell(calls);
    EndsTell(calls, outcomes);
    ResultsTell(calls, round);
    CollectAppend(Started, starts, ends);
    CollectAppend(Ended, starts, ends);
    CollectAppend(Reported, starts, ends);
    CollectOne(Called, m);
    CollectAppend(Called, [m], results);
    CollectOne(Recorded, m);
    CollectAppend(Recorded, [m], results);
  }

  lemma {:induction false} NotedTells(events: seq<AgentEvent>, added: seq<Message>, note: Message, reflects: bool)
    requires Tell(events, added) && !note.content.HasToolCalls() && !note.content.Result?
    ensures Tell(events + (if reflects then [Reflecting] else []), added + (if reflects then [note] else []))
  {
    var reflecting: seq<AgentEvent> := if reflects then [Reflecting] else [];
    var notes := if reflects then [note] else [];
    QuietTells(reflecting, notes);
    TellAppend(events, added, reflecting, notes);
  }

  lemma {:induction false} ToolsTell(w: World, cfg: Config, i: nat, history: seq<Message>, m: Message, errors: nat)
    requires m.content.HasToolCalls()
    ensures
      var t := ToolTurn(w, cfg, i, history, m.content.ToolCalls(), errors);
      Tell(t.events, [m] + t.added)
  {
    var calls, round := m.content.ToolCalls(), w.RoundOf(i, cfg.maxToolRetries);
    var outcomes := Outcomes(calls, round);
    var results := ResultMessages(outcomes);
    var note, reflects := Reflection(history + results), Reflects(cfg, outcomes, errors);
    RoundTells(m, calls, round);
    NotedTells(Starts(calls) + Ends(outcomes), [m] + results, note, reflects);
    Assoc([m], results, if reflects then [note] else []);
  }

  lemma {:induction false} ReplyTells(w: World, cfg: Config, i: nat, history: seq<Message>, reply: Reply, errors: nat)
    requires !reply.message.content.Result?
    ensures
      var t := ReplyTurn(w, cfg, i, history, reply, errors);
      Tell(t.events, [reply.message] + t.added)
  {
    var m := reply.message;
    if m.content.HasToolCalls() {
      ToolsTell(w, cfg, i, history, m, errors);
    } else {
      var t := ReplyTurn(w, cfg, i, history, reply, errors);
      QuietTells(t.events, [m] + t.added);
    }
  }

  lemma {:induction false} TurnTells(w: World, cfg: Config, i: nat, before: seq<Message>, errors: nat)
    requires WellSpoken(w)
    ensures
      var t := TurnOf(w, cfg, i, before, errors);
      Tell(t.events, t.added)
  {
    var warned, deltas := Warnings(cfg, i), Deltas(w.deltas(i));
    QuietTells([], []);
    QuietTells(deltas, warned);
    if !w.expired(i + 1) && w.replies(i).Ok? {
      var reply := w.replies(i).value;
      var said := warned + [reply.message];
      var t := ReplyTurn(w, cfg, i, before + said, reply, errors);
      ReplyTells(w, cfg, i, before + said, reply, errors);
      TellAppend(deltas, warned, t.events, [reply.message] + t.added);
      Assoc(warned, [reply.message], t.added);
    }
  }

  /** Over a whole run the start events, the end events and the calls in the history agree one to one
      and in order, and each end event tells the success that the history records. */
  lemma {:induction false} EventsTellTheHistory(w: World, cfg: Config, before: seq<Message>)
    requires WellSpoken(w)
    ensures var r := Whole(w, cfg, before); Tell(r.events, r.body)
  {
    forall i, b, e ensures TurnTold(Turns(w, cfg)(i, b, e)) {
      TurnTells(w, cfg, i, b, e);
    }
    QuietTells([], []);
    FinalTells(w, cfg);
    LoopTells(Turns(w, cfg), Final(w, cfg), cfg.maxIterations, before);
  }

  lemma {:induction false} ClosingTells(answer: Outcome<Reply, Error>, texts: seq<string>, note: Message)
    requires !note.content.HasToolCalls() && !note.content.Result?
    ensures var f := Closing(answer, texts, note); Tell(f.events, f.body)
  {
    var f := Closing(answer, texts, note);
    QuietTells(f.events, f.body);
  }

  lemma {:induction false} FinalTells(w: World, cfg: Config)
    ensures Tell(Final(w, cfg).events, Final(w, cfg).body)
  {
    var n := cfg.maxIterations;
    ClosingTells(w.replies(n), w.deltas(n), Escalation(n));
  }

  ghost predicate TurnTold(t: Turn) { Tell(t.events, t.added) }

  lemma {:induction false} LoopTells(turn: Turner, final: Rest, max: nat, before: seq<Message>)
    requires EveryTurn(turn, TurnTold) && Tell(final.events, final.body)
    ensures var r := Loop(turn, final, max, 0, before, 0); Tell(r.events, r.body)
  {
    var q := (r: Rest, k: nat) => Tell(r.events, r.body);
    forall t, rest, k: nat | TurnTold(t) && k < max && t.next.Again? && q(rest, k + 1) ensures q(After(t, rest), k) {
      TellAppend(t.events, t.added, rest.events, rest.body);
    }
    LoopKeeps(turn, final, max, 0, before, 0, TurnTold, q);
  }

  /** `Done` is emitted exactly when the run succeeds, once, and last. */
  ghost predicate DoneLast(events: seq<AgentEvent>, ending: Ending) {
    && (ending.Ok? <==> Done in events)
    && forall k :: 0 <= k < |events| && events[k].Done? ==> k == |events| - 1
  }

  ghost predicate TurnDoneLast(t: Turn) {
    match t.next
    case Stop(ending) => DoneLast(t.events, ending)
    case Again(_) => Done !in t.events
  }

  lemma {:induction false} TurnIsDoneLast(w: World, cfg: Config, i: nat, before: seq<Message>, errors: nat)
    ensures TurnDoneLast(TurnOf(w, cfg, i, before, errors))
  {
  }

  lemma {:induction false} ClosingIsDoneLast(answer: Outcome<Reply, Error>, texts: seq<string>, note: Message)
    ensures var f := Closing(answer, texts, note); DoneLast(f.events, f.ending)
  {
  }

  lemma {:induction false} DoneOnceAndLast(w: World, cfg: Config, before: seq<Message>)
    ensures var r := Whole(w, cfg, before); DoneLast(r.events, r.ending)
  {
    var n := cfg.maxIterations;
    forall i, b, e ensures TurnDoneLast(Turns(w, cfg)(i, b, e)) {
      TurnIsDoneLast(w, cfg, i, b, e);
    }
    ClosingIsDoneLast(w.replies(n), w.deltas(n), Escalation(n));
    LoopIsDoneLast(Turns(w, cfg), Final(w, cfg), n, before);
  }

  lemma {:induction false} LoopIsDoneLast(turn: Turner, final: Rest, max: nat, before: seq<Message>)
    requires EveryTurn(turn, TurnDoneLast) && DoneLast(final.events, final.ending)
    ensures var r := Loop(turn, final, max, 0, before, 0); DoneLast(r.events, r.ending)
  {
    var q := (r: Rest, k: nat) => DoneLast(r.events, r.ending);
    forall t, rest, k: nat | TurnDoneLast(t) && k < max && t.next.Again? && q(rest, k + 1) ensures q(After(t, rest), k) {
      DoneAfter(t.events, rest);
    }
    LoopKeeps(turn, final, max, 0, before, 0, TurnDoneLast, q);
  }

  lemma {:induction false} DoneAfter(quiet: seq<AgentEvent>, rest: Rest)
    requires Done !in quiet && DoneLast(rest.events, rest.ending)
    ensures DoneLast(quiet + rest.events, rest.ending)
  {
    var all := quiet + rest.events;
    if Done in rest.events {
      var k :| 0 <= k < |rest.events| && rest.events[k] == Done;
      assert all[|quiet| + k] == Done;
    }
    assert forall k :: 0 <= k < |quiet| ==> all[k] == quiet[k];
    forall k | |quiet| <= k < |all| && all[k].Done? ensures k == |all| - 1 {
      assert rest.events[k - |quiet|].Done?;
    }
  }

  /** Deltas followed by other events stream just the deltas. */
  lemma {:induction false} StreamsDeltas(w: World, i: nat, tail: seq<AgentEvent>)
    requires forall k :: 0 <= k < |tail| ==> !tail[k].TextDelta?
    ensures Collect(Streamed, Deltas(w.deltas(i)) + tail) == DeltasFrom(w, i, 1)
  {
    var deltas := Deltas(w.deltas(i));
    CollectEach(Streamed, deltas, w.deltas(i));
    CollectNothing(Streamed, tail);
    CollectAppend(Streamed, deltas, tail);
    assert DeltasFrom(w, i + 1, 0) == [];
  }

  lemma {:induction false} TurnStreams(w: World, cfg: Config, i: nat, before: seq<Message>, errors: nat)
    ensures
      var t := TurnOf(w, cfg, i, before, errors);
      && t.calls <= 1 && (t.next.Again? ==> t.calls == 1)
      && Collect(Streamed, t.events) == DeltasFrom(w, i, t.calls)
  {
    var t := TurnOf(w, cfg, i, before, errors);
    if t.calls == 1 {
      var tail := t.events[|w.deltas(i)|..];
      StreamsDeltas(w, i, tail);
      assert t.events == Deltas(w.deltas(i)) + tail;
    }
  }

  lemma {:induction false} DeltasSplit(w: World, i: nat, count: nat)
    ensures DeltasFrom(w, i, 1 + count) == DeltasFrom(w, i, 1) + DeltasFrom(w, i + 1, count)
  {
    assert DeltasFrom(w, i + 1, 0) == [];
    assert w.deltas(i) + [] == w.deltas(i);
  }

  lemma {:induction false} StreamsOn(w: World, i: nat, t: Turn, rest: Rest)
    requires t.calls == 1 && Collect(Streamed, t.events) == DeltasFrom(w, i, 1)
    requires Collect(Streamed, rest.events) == DeltasFrom(w, i + 1, rest.calls)
    ensures Collect(Streamed, After(t, rest).events) == DeltasFrom(w, i, After(t, rest).calls)
  {
    CollectAppend(Streamed, t.events, rest.events);
    DeltasSplit(w, i, rest.calls);
  }

  lemma {:induction false} ClosingStreams(w: World, n: nat, note: Message)
    ensures
      var f := Closing(w.replies(n), w.deltas(n), note);
      f.calls == 1 && Collect(Streamed, f.events) == DeltasFrom(w, n, 1)
  {
    var tail: seq<AgentEvent> := if w.replies(n).Ok? then [Done] else [];
    StreamsDeltas(w, n, tail);
    assert Deltas(w.deltas(n)) + [] == Deltas(w.deltas(n));
  }

  lemma {:induction false} FinalStreams(w: World, cfg: Config)
    ensures
      var f := Final(w, cfg);
      f.calls == 1 && Collect(Streamed, f.events) == DeltasFrom(w, cfg.maxIterations, 1)
  {
    ClosingStreams(w, cfg.maxIterations, Escalation(cfg.maxIterations));
  }

  /** The text deltas are those of the provider calls made, in order, and nothing else. */
  lemma {:induction false} LoopStreams(w: World, cfg: Config, i: nat, before: seq<Message>, errors: nat)
    requires i <= cfg.maxIterations
    ensures
      var rest := Loop(Turns(w, cfg), Final(w, cfg), cfg.maxIterations, i, before, errors);
      Collect(Streamed, rest.events) == DeltasFrom(w, i, rest.calls)
    decreases cfg.maxIterations - i
  {
    if i == cfg.maxIterations {
      FinalStreams(w, cfg);
    } else {
      var t := Turns(w, cfg)(i, before, errors);
      TurnStreams(w, cfg, i, before, errors);
      if t.next.Again? {
        LoopStreams(w, cfg, i + 1, before + t.added, t.next.errors);
        StreamsOn(w, i, t, Loop(Turns(w, cfg), Final(w, cfg), cfg.maxIterations, i + 1, before + t.added, t.next.errors));
      }
    }
  }

  /** Never more than `max_iterations + 1` provider calls. */
  lemma {:induction false} CallsAreBounded(w: World, cfg: Config, before: seq<Message>)
    ensures Whole(w, cfg, before).calls <= cfg.maxIterations + 1
  {
    forall i, b, e ensures AtMostOneCall(Turns(w, cfg)(i, b, e)) {
      TurnStreams(w, cfg, i, b, e);
    }
    FinalStreams(w, cfg);
    LoopIsBounded(Turns(w, cfg), Final(w, cfg), cfg.maxIterations, before);
  }

  predicate AtMostOneCall(t: Turn) { t.calls <= 1 }

  lemma {:induction false} LoopIsBounded(turn: Turner, final: Rest, max: nat, before: seq<Message>)
    requires EveryTurn(turn, AtMostOneCall) && final.calls <= 1
    ensures Loop(turn, final, max, 0, before, 0).calls <= max + 1
  {
    LoopKeeps(turn, final, max, 0, before, 0, AtMostOneCall, (r: Rest, k: nat) => r.calls <= max - k + 1);
  }

  // ---- Round by round ----------------------------------------------------------------------

  /** One provider call and what came of it: notes before it, its reply, the results of the reply's
      calls, a note after them, and the streamed text. */
  datatype Log = Log(notes: seq<Message>, reply: Option<Message>, results: seq<Message>, after: seq<Message>,
                     texts: seq<string>, done: bool)
  {
    predicate UsesTools() {
      reply.Some? && reply.value.content.HasToolCalls()
    }

    function Calls(): seq<ToolCall> {
      if reply.Some? then reply.value.content.ToolCalls() else []
    }

    function Spoken(): seq<Message> {
      notes + (if reply.Some? then [reply.value] else []) + results + after
    }

    /** In this order: the text, a start for every call, an end for every call, a reflection. */
    ghost function Heard(): seq<AgentEvent>
      requires Answers(results, Calls())
    {
      Deltas(texts) + Starts(Calls()) + Reports(Calls(), results)
      + (if UsesTools() && after != [] then [Reflecting] else []) + (if done then [Done] else [])
    }
  }

  /** The end event that tells what a result message tells. */
  function Report(call: ToolCall, result: Message): AgentEvent
    requires result.content.Result?
  {
    ToolCallEnd(call.name, call.id, !result.content.result.isError, ErrorText(result))
  }

  ghost function Reports(calls: seq<ToolCall>, results: seq<Message>): (r: seq<AgentEvent>)
    requires Answers(results, calls)
    ensures |r| == |calls| && forall k :: 0 <= k < |r| ==> r[k] == Report(calls[k], results[k])
  {
    seq(|calls|, k requires 0 <= k < |calls| => Report(calls[k], results[k]))
  }

  predicate AllNotes(notes: seq<Message>) {
    |notes| <= 1 && forall k :: 0 <= k < |notes| ==> !notes[k].content.HasToolCalls() && !notes[k].content.Result?
  }

  /** `l` logs the i-th provider call.  The reply to the closing request is not part of it. */
  ghost predicate Logs(w: World, cfg: Config, i: nat, l: Log) {
    && l.texts == w.deltas(i)
    && l.reply == (if i < cfg.maxIterations && w.replies(i).Ok? then Some(w.replies(i).value.message) else None)
    && l.notes == NotesBefore(cfg, i)
    && Answers(l.results, l.Calls())
    && AllNotes(l.notes) && AllNotes(l.after)
    && (l.done ==> !l.UsesTools())
    && (l.reply.Some? && !l.UsesTools() ==>
          l.after == NotesAfter(w.replies(i).value.stop) && (l.done <==> w.replies(i).value.stop == EndTurn))
    && (l.UsesTools() ==>
          forall k :: 0 <= k < |l.Calls()| ==> Tells(w, cfg, i, |l.Calls()| == 1, l.Calls()[k], k, l.results[k]))
  }

  /** The warning when the configured number of iterations is reached, and the request to sum up once
      the cap is. */
  function NotesBefore(cfg: Config, i: nat): seq<Message> {
    if i >= cfg.maxIterations then [Escalation(cfg.maxIterations)]
    else if 0 < i == cfg.softIterationWarning then [Warning(i, cfg.maxIterations)]
    else []
  }

  /** What answers a reply without tool calls: a reply that was cut off is to be continued, a finished one
      needs nothing, and one that promised a tool call is to be tried again. */
  function NotesAfter(stop: StopReason): seq<Message> {
    match stop
    case EndTurn => []
    case MaxTokens => [Note(User, "Continue.")]
    case ToolUse => [Note(User, "Your previous response indicated a tool call but none was found. Please retry.")]
  }

  /** The tools whose output comes from the internet. */
  predicate FromTheInternet(name: string) {
    name in {"browser", "http_request", "http_session", "web_fetch", "web_search", "x_search"}
  }

  /** The attempt that decided: nothing but transient errors before it, and it succeeded, failed for
      good, or was the last one allowed. */
  ghost predicate Decides(attempt: nat -> Attempt, maxRetries: nat, last: nat) {
    && last <= maxRetries
    && (forall j :: 0 <= j < last ==> attempt(j).Err? && attempt(j).error.kind.Transient?)
    && (attempt(last).Ok? || !attempt(last).error.kind.Transient? || last == maxRetries)
  }

  /** The result message tells the output of the call's deciding attempt, fenced if it comes from the
      internet, or the first line of its error. */
  ghost predicate Tells(w: World, cfg: Config, i: nat, alone: bool, call: ToolCall, k: nat, m: Message) {
    var attempt := (n: nat) => w.attempt(i, k, n);
    && m.role == Tool && m.content.Result? && m.content.result.callId == call.id
    && if !alone && w.panic(i, k).Some?
       then TellsError(m, "task panicked: " + w.panic(i, k).value)
       else exists last :: Decides(attempt, cfg.maxToolRetries, last) && TellsAttempt(m, call.name, attempt(last))
  }

  predicate TellsAttempt(m: Message, name: string, a: Attempt) {
    match a
    case Ok(output) =>
      && m.content.Result? && !m.content.result.isError
      && m.content.result.output == if FromTheInternet(name) then Fence(output) else output
    case Err(e) => TellsError(m, e.text)
  }

  predicate TellsError(m: Message, text: string) {
    && m.content.Result? && m.content.result.isError
    && m.content.result.output == Object([("error", String(SanitizeError(text)))])
  }

  ghost predicate AllLogged(w: World, cfg: Config, i: nat, logs: seq<Log>) {
    && (forall k :: 0 <= k < |logs| ==> Logs(w, cfg, i + k, logs[k]))
    && (forall k :: 0 <= k < |logs| - 1 ==> !logs[k].done)
  }

  function AllSpoken(logs: seq<Log>): seq<Message> {
    if logs == [] then [] else logs[0].Spoken() + AllSpoken(logs[1..])
  }

  ghost function AllHeard(logs: seq<Log>): seq<AgentEvent>
    requires forall k :: 0 <= k < |logs| ==> Answers(logs[k].results, logs[k].Calls())
  {
    if logs == [] then [] else logs[0].Heard() + AllHeard(logs[1..])
  }

  /** History and events are those of one log per provider call, one after the other. */
  ghost predicate InRounds(w: World, cfg: Config, i: nat, body: seq<Message>, events: seq<AgentEvent>, logs: seq<Log>) {
    AllLogged(w, cfg, i, logs) && body == AllSpoken(logs) && events == AllHeard(logs)
  }

  /** Some result reports an error. */
  predicate Troubling(l: Log) {
    exists k :: 0 <= k < |l.results| && l.results[k].content.Result? && Get(l.results[k].content.result.output, "error").Some?
  }

  /** How many rounds of tool calls in a row have had trouble; a reflection starts the count again. */
  function Trouble(l: Log, before: nat): nat {
    if !l.UsesTools() then before else if Troubling(l) && l.after == [] then before + 1 else 0
  }

  /** A round of tool calls is followed by a reflection on the history exactly when it is the last of
      enough troubled ones. */
  ghost predicate Counted(cfg: Config, history: seq<Message>, trouble: nat, logs: seq<Log>)
    decreases |logs|
  {
    logs == []
    || (&& (logs[0].UsesTools() ==> ReflectsRightly(cfg, history, trouble, logs[0]))
        && Counted(cfg, history + logs[0].Spoken(), Trouble(logs[0], trouble), logs[1..]))
  }

  predicate ReflectsRightly(cfg: Config, history: seq<Message>, trouble: nat, l: Log)
    requires l.reply.Some?
  {
    l.after == if Troubling(l) && trouble + 1 >= cfg.maxConsecutiveErrors
               then [Reflection(history + (l.notes + [l.reply.value]) + l.results)] else []
  }

  lemma {:induction false} EndIsReport(call: ToolCall, k: nat, round: Round, alone: bool)
    ensures
      var o := CallOutcome(call.name, call.id, round.Result(call, k, alone));
      ResultMessage(o).content.Result? && EndOf(o) == Report(call, ResultMessage(o))
  {
    var last := RetriesStopAtFirst(call, round.Attempts(k), 0, round.maxRetries);
  }

  lemma {:induction false} EndsAreReports(calls: seq<ToolCall>, round: Round)
    ensures
      var outcomes := Outcomes(calls, round);
      && Answers(ResultMessages(outcomes), calls)
      && Ends(outcomes) == Reports(calls, ResultMessages(outcomes))
  {
    var outcomes := Outcomes(calls, round);
    ResultsAnswer(calls, round);
    forall k | 0 <= k < |calls| ensures Ends(outcomes)[k] == Reports(calls, ResultMessages(outcomes))[k] {
      EndIsReport(calls[k], k, round, |calls| == 1);
    }
  }

  lemma {:induction false} RetriesTell(w: World, cfg: Config, i: nat, call: ToolCall, k: nat)
    ensures
      var attempt := (n: nat) => w.attempt(i, k, n);
      var o := CallOutcome(call.name, call.id, WithRetries(call, w.RoundOf(i, cfg.maxToolRetries).Attempts(k), 0, cfg.maxToolRetries));
      exists last :: Decides(attempt, cfg.maxToolRetries, last) && TellsAttempt(ResultMessage(o), call.name, attempt(last))
  {
    var round := w.RoundOf(i, cfg.maxToolRetries);
    var attempt := (n: nat) => w.attempt(i, k, n);
    var last := RetriesStopAtFirst(call, round.Attempts(k), 0, cfg.maxToolRetries);
    forall j | 0 <= j < last ensures attempt(j).Err? && attempt(j).error.kind.Transient? {
      assert Retried(round.Attempts(k), j) && round.Attempts(k)(j) == attempt(j);
    }
    assert round.Attempts(k)(last) == attempt(last);
    assert last < cfg.maxToolRetries ==> !Retried(round.Attempts(k), last);
    assert Decides(attempt, cfg.maxToolRetries, last);
  }

  lemma {:induction false} ResultTells(w: World, cfg: Config, i: nat, alone: bool, call: ToolCall, k: nat)
    ensures
      var o := CallOutcome(call.name, call.id, w.RoundOf(i, cfg.maxToolRetries).Result(call, k, alone));
      Tells(w, cfg, i, alone, call, k, ResultMessage(o))
  {
    var round := w.RoundOf(i, cfg.maxToolRetries);
    OutcomeHasItsId(call, k, round, alone);
    RetriesTell(w, cfg, i, call, k);
  }

  /** A round of tool calls is logged. */
  lemma {:induction false} TroubleIsHeard(calls: seq<ToolCall>, round: Round)
    ensures
      var outcomes, results := Outcomes(calls, round), ResultMessages(Outcomes(calls, round));
      HadErrors(outcomes)
      <==> exists k :: 0 <= k < |results| && results[k].content.Result? && Get(results[k].content.result.output, "error").Some?
  {
    var outcomes := Outcomes(calls, round);
    forall k | 0 <= k < |outcomes|
      ensures
        var m := ResultMessage(outcomes[k]);
        Troubled(outcomes[k]) <==> m.content.Result? && Get(m.content.result.output, "error").Some?
    {
      if outcomes[k].result.Err? {
        assert FieldOf([("error", String(SanitizeError(outcomes[k].result.error.text)))], "error").Some?;
      }
    }
  }

  lemma {:induction false} ToolsAreLogged(w: World, cfg: Config, i: nat, history: seq<Message>,
        notes: seq<Message>, m: Message, errors: nat)
    returns (l: Log)
    requires m.content.HasToolCalls() && AllNotes(notes)
    ensures l.texts == w.deltas(i) && l.reply == Some(m) && l.notes == notes && AllNotes(l.after) && !l.done
    ensures Answers(l.results, l.Calls())
    ensures forall k :: 0 <= k < |l.Calls()| ==> Tells(w, cfg, i, |l.Calls()| == 1, l.Calls()[k], k, l.results[k])
    ensures l.after == if Troubling(l) && errors + 1 >= cfg.maxConsecutiveErrors then [Reflection(history + l.results)] else []
    ensures ToolTurn(w, cfg, i, history, m.content.ToolCalls(), errors).next == Again(Trouble(l, errors))
    ensures
      var t := ToolTurn(w, cfg, i, history, m.content.ToolCalls(), errors);
      && l.Spoken() == notes + [m] + t.added
      && l.Heard() == Deltas(w.deltas(i)) + t.events
  {
    var calls, round := m.content.ToolCalls(), w.RoundOf(i, cfg.maxToolRetries);
    var outcomes := Outcomes(calls, round);
    var results := ResultMessages(outcomes);
    var after := if Reflects(cfg, outcomes, errors) then [Reflection(history + results)] else [];
    EndsAreReports(calls, round);
    TroubleIsHeard(calls, round);
    forall k | 0 <= k < |calls| ensures Tells(w, cfg, i, |calls| == 1, calls[k], k, results[k]) {
      ResultTells(w, cfg, i, |calls| == 1, calls[k], k);
    }
    l := Log(notes, Some(m), results, after, w.deltas(i), false);
    Assoc(notes + [m], results, after);
    var reflecting: seq<AgentEvent> := if after != [] then [Reflecting] else [];
    FourParts(Deltas(w.deltas(i)), Starts(calls), Ends(outcomes), reflecting);
    assert l.Heard() == Deltas(w.deltas(i)) + Starts(calls) + Ends(outcomes) + reflecting;
  }

  /** What follows a reply is logged. */
  lemma {:induction false} ReplyIsLogged(w: World, cfg: Config, i: nat, history: seq<Message>, notes: seq<Message>,
        reply: Reply, errors: nat)
    returns (l: Log)
    requires i < cfg.maxIterations && w.replies(i) == Ok(reply) && AllNotes(notes) && notes == NotesBefore(cfg, i)
    ensures Logs(w, cfg, i, l)
    ensures
      var t := ReplyTurn(w, cfg, i, history, reply, errors);
      && l.Spoken() == notes + [reply.message] + t.added
      && l.Heard() == Deltas(w.deltas(i)) + t.events
      && (l.done ==> t.next.Stop?)
      && (t.next.Again? ==> t.next.errors == Trouble(l, errors))
    ensures l.UsesTools() ==>
      l.after == if Troubling(l) && errors + 1 >= cfg.maxConsecutiveErrors then [Reflection(history + l.results)] else []
  {
    var m := reply.message;
    if m.content.HasToolCalls() {
      l := ToolsAreLogged(w, cfg, i, history, notes, m, errors);
    } else {
      var t := ReplyTurn(w, cfg, i, history, reply, errors);
      l := Log(notes, Some(m), [], t.added, w.deltas(i), reply.stop == EndTurn);
      QuietLog(l);
    }
  }

  lemma {:induction false} QuietLog(l: Log)
    requires l.results == [] && !l.UsesTools()
    ensures l.Heard() == Deltas(l.texts) + if l.done then [Done] else []
    ensures l.Spoken() == l.notes + (if l.reply.Some? then [l.reply.value] else []) + l.after
  {
  }

  lemma {:induction false} TurnIsLogged(w: World, cfg: Config, i: nat, before: seq<Message>, errors: nat)
    returns (l: Log)
    requires i < cfg.maxIterations && !w.expired(i + 1)
    ensures Logs(w, cfg, i, l)
    ensures
      var t := TurnOf(w, cfg, i, before, errors);
      && t.calls == 1 && l.Spoken() == t.added && l.Heard() == t.events && (l.done ==> t.next.Stop?)
      && (t.next.Again? ==> t.next.errors == Trouble(l, errors))
    ensures l.UsesTools() ==> ReflectsRightly(cfg, before, errors, l)
  {
    var warned := Warnings(cfg, i);
    if w.replies(i).Ok? {
      var reply := w.replies(i).value;
      l := ReplyIsLogged(w, cfg, i, before + (warned + [reply.message]), warned, reply, errors);
    } else {
      l := Log(warned, None, [], [], w.deltas(i), false);
      QuietLog(l);
      assert warned + [] + [] == warned && Deltas(w.deltas(i)) + [] == Deltas(w.deltas(i));
    }
  }

  lemma {:induction false} ClosingIsLogged(w: World, cfg: Config) returns (l: Log)
    ensures Logs(w, cfg, cfg.maxIterations, l)
    ensures
      var f := Final(w, cfg);
      f.calls == 1 && l.Spoken() == f.body && l.Heard() == f.events
  {
    var max, note := cfg.maxIterations, Escalation(cfg.maxIterations);
    l := Log([note], None, [], [], w.deltas(max), w.replies(max).Ok?);
    QuietLog(l);
    assert [note] + [] + [] == [note] && Deltas(w.deltas(max)) + [] == Deltas(w.deltas(max));
  }

  lemma {:induction false} OneLog(w: World, cfg: Config, i: nat, l: Log)
    requires Logs(w, cfg, i, l)
    ensures InRounds(w, cfg, i, l.Spoken(), l.Heard(), [l])
  {
    assert [l][1..] == [];
    assert l.Spoken() + [] == l.Spoken() && l.Heard() + [] == l.Heard();
  }

  lemma {:induction false} LogCons(w: World, cfg: Config, i: nat, l: Log, body: seq<Message>, events: seq<AgentEvent>,
        logs: seq<Log>)
    requires Logs(w, cfg, i, l) && InRounds(w, cfg, i + 1, body, events, logs)
    requires logs != [] ==> !l.done
    ensures InRounds(w, cfg, i, l.Spoken() + body, l.Heard() + events, [l] + logs)
  {
    AllLoggedCons(w, cfg, i, l, logs);
    assert ([l] + logs)[1..] == logs;
  }

  lemma {:induction false} AllLoggedCons(w: World, cfg: Config, i: nat, l: Log, logs: seq<Log>)
    requires Logs(w, cfg, i, l) && AllLogged(w, cfg, i + 1, logs)
    requires logs != [] ==> !l.done
    ensures AllLogged(w, cfg, i, [l] + logs)
  {
    EachCons((j: nat, x: Log) => Logs(w, cfg, j, x), i, l, logs);
    NotDoneCons(l, logs);
  }

  lemma {:induction false} NotDoneCons(l: Log, logs: seq<Log>)
    requires logs != [] ==> !l.done
    requires forall k :: 0 <= k < |logs| - 1 ==> !logs[k].done
    ensures forall k :: 0 <= k < |[l] + logs| - 1 ==> !([l] + logs)[k].done
  {
  }

  lemma {:induction false} EachCons<T>(p: (nat, T) -> bool, i: nat, x: T, xs: seq<T>)
    requires p(i, x) && forall k :: 0 <= k < |xs| ==> p(i + 1 + k, xs[k])
    ensures forall k :: 0 <= k < |[x] + xs| ==> p(i + k, ([x] + xs)[k])
  {
    forall k | 0 <= k < |[x] + xs| ensures p(i + k, ([x] + xs)[k]) {
      if k > 0 {
        assert p(i + 1 + (k - 1), xs[k - 1]);
      }
    }
  }

  lemma {:induction false} CountedOne(cfg: Config, history: seq<Message>, trouble: nat, l: Log)
    requires l.UsesTools() ==> ReflectsRightly(cfg, history, trouble, l)
    ensures Counted(cfg, history, trouble, [l])
  {
    assert [l][1..] == [];
  }

  lemma {:induction false} CountedCons(cfg: Config, history: seq<Message>, trouble: nat, l: Log, logs: seq<Log>)
    requires l.UsesTools() ==> ReflectsRightly(cfg, history, trouble, l)
    requires Counted(cfg, history + l.Spoken(), Trouble(l, trouble), logs)
    ensures Counted(cfg, history, trouble, [l] + logs)
  {
    assert ([l] + logs)[1..] == logs;
  }

  lemma {:induction false} RoundsGoOn(w: World, cfg: Config, i: nat, before: seq<Message>, errors: nat, t: Turn, l: Log,
        rest: Rest, later: seq<Log>)
    requires Logs(w, cfg, i, l) && l.Spoken() == t.added && l.Heard() == t.events && !l.done
    requires l.UsesTools() ==> ReflectsRightly(cfg, before, errors, l)
    requires InRounds(w, cfg, i + 1, rest.body, rest.events, later)
    requires Counted(cfg, before + t.added, Trouble(l, errors), later)
    ensures InRounds(w, cfg, i, After(t, rest).body, After(t, rest).events, [l] + later)
    ensures Counted(cfg, before, errors, [l] + later)
  {
    LogCons(w, cfg, i, l, rest.body, rest.events, later);
    CountedCons(cfg, before, errors, l, later);
  }

  lemma {:induction false} LoopInRounds(w: World, cfg: Config, i: nat, before: seq<Message>, errors: nat)
    returns (logs: seq<Log>)
    requires i <= cfg.maxIterations
    ensures
      var rest := Loop(Turns(w, cfg), Final(w, cfg), cfg.maxIterations, i, before, errors);
      |logs| == rest.calls && InRounds(w, cfg, i, rest.body, rest.events, logs)
    ensures Counted(cfg, before, errors, logs)
    decreases cfg.maxIterations - i, 1
  {
    if i == cfg.maxIterations {
      var l := ClosingIsLogged(w, cfg);
      OneLog(w, cfg, i, l);
      CountedOne(cfg, before, errors, l);
      logs := [l];
    } else if w.expired(i + 1) {
      logs := [];
    } else {
      logs := TurnInRounds(w, cfg, i, before, errors, Turns(w, cfg)(i, before, errors));
    }
  }

  lemma {:induction false} TurnInRounds(w: World, cfg: Config, i: nat, before: seq<Message>, errors: nat, t: Turn)
    returns (logs: seq<Log>)
    requires i < cfg.maxIterations && !w.expired(i + 1) && t == TurnOf(w, cfg, i, before, errors)
    ensures match t.next
      case Stop(_) => |logs| == t.calls && InRounds(w, cfg, i, t.added, t.events, logs)
      case Again(e) =>
        var rest := After(t, Loop(Turns(w, cfg), Final(w, cfg), cfg.maxIterations, i + 1, before + t.added, e));
        |logs| == rest.calls && InRounds(w, cfg, i, rest.body, rest.events, logs)
    ensures Counted(cfg, before, errors, logs)
    decreases cfg.maxIterations - i, 0
  {
    var l := TurnIsLogged(w, cfg, i, before, errors);
    if t.next.Again? {
      var later := LoopInRounds(w, cfg, i + 1, before + t.added, t.next.errors);
      var rest := Loop(Turns(w, cfg), Final(w, cfg), cfg.maxIterations, i + 1, before + t.added, t.next.errors);
      RoundsGoOn(w, cfg, i, before, errors, t, l, rest, later);
      logs := [l] + later;
    } else {
      OneLog(w, cfg, i, l);
      CountedOne(cfg, before, errors, l);
      logs := [l];
    }
  }

  /** The events come in rounds, one per provider call: its text deltas, a start for each call of its
      reply, then an end for each of these calls that tells what the history records as its result,
      then perhaps a reflection; and the history comes in the same rounds. */
  lemma {:induction false} EventsComeInRounds(w: World, cfg: Config, before: seq<Message>) returns (logs: seq<Log>)
    ensures
      var r := Whole(w, cfg, before);
      && |logs| == r.calls && InRounds(w, cfg, 0, r.body, r.events, logs)
      && Counted(cfg, before, 0, logs)
  {
    if w.expired(0) {
      logs := [];
    } else {
      logs := LoopInRounds(w, cfg, 0, before, 0);
    }
  }

  /** All of it, for a whole run of either loop: the history only grows, by `body` and `closing`. */
  lemma {:induction false} RunPromise(w: World, cfg: Config, before: seq<Message>) returns (logs: seq<Log>)
    requires WellSpoken(w)
    ensures
      var r := Whole(w, cfg, before);
      && Paired(r.body)
      && |r.closing| <= 1 && (r.closing != [] ==> r.ending.Ok? && r.calls == cfg.maxIterations + 1)
      && r.calls <= cfg.maxIterations + 1
      && Tell(r.events, r.body)
      && |logs| == r.calls && InRounds(w, cfg, 0, r.body, r.events, logs) && Counted(cfg, before, 0, logs)
      && DoneLast(r.events, r.ending)
      && Collect(Streamed, r.events) == DeltasFrom(w, 0, r.calls)
  {
    EveryCallIsAnswered(w, cfg, before);
    CallsAreBounded(w, cfg, before);
    EventsTellTheHistory(w, cfg, before);
    logs := EventsComeInRounds(w, cfg, before);
    DoneOnceAndLast(w, cfg, before);
    LoopStreams(w, cfg, 0, before, 0);
  }
}

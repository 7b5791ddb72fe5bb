/** The Anthropic event stream (crates/rustykrab-providers/src/anthropic.rs): line framing, the event
    loop of `chat_stream`, and the one-shot `parse_response` it has to agree with.

    JSON decoding is foreign: `Wire` holds what each kind of payload decodes to.  The network may cut
    the stream anywhere between two characters. */
module SseStream {
  import opened Options
  import opened Seqs
  import opened Framing
  import opened Strings
  import opened Json
  import opened Messages
  import L = Lines

  datatype Usage = Usage(prompt: nat, completion: nat, cacheRead: nat, cacheCreation: nat)

  datatype Response = Response(content: Content, usage: Usage, stop: StopReason, text: Option<string>)

  // ---- Payloads ----------------------------------------------------------------------------

  datatype BlockStart = ToolStart(id: string, name: string) | OtherStart
  datatype Delta = TextPiece(text: string) | InputPiece(json: string) | OtherDelta

  datatype StartUsage = StartUsage(input: nat, cacheRead: Option<nat>, cacheCreation: Option<nat>)

  /** What `serde_json::from_str` makes of each kind of payload; `None` when it fails. */
  datatype Wire = Wire(
    messageStart: string -> Option<StartUsage>,
    blockStart: string -> Option<(nat, BlockStart)>,
    blockDelta: string -> Option<(nat, Delta)>,
    blockStop: string -> Option<nat>,
    messageDelta: string -> Option<(nat, Option<string>)>,
    value: string -> Option<Json>)

  function OrZero(n: Option<nat>): nat {
    if n.Some? then n.value else 0
  }

  function StopOf(reason: Option<string>): StopReason {
    if reason == Some("tool_use") then ToolUse
    else if reason == Some("max_tokens") then MaxTokens
    else EndTurn
  }

  /** The accumulated input of a tool call; an empty object when it is no JSON. */
  function InputOf(w: Wire, text: string): Json {
    var v := w.value(text);
    if v.Some? then v.value else Object([])
  }

  // ---- One line ----------------------------------------------------------------------------

  /** Everything the loop accumulates besides its buffer.  `deltas` is what `on_event` was given. */
  datatype Acc = Acc(
    eventType: string,
    fullText: string,
    deltas: seq<string>,
    toolCalls: seq<ToolCall>,
    inputs: map<nat, string>,
    meta: map<nat, (string, string)>,
    usage: Usage,
    stop: StopReason)

  const START := Acc("", "", [], [], map[], map[], Usage(0, 0, 0, 0), EndTurn)

  function StripPrefix(line: string, prefix: string): Option<string> {
    if prefix <= line then Some(line[|prefix|..]) else None
  }

  function OnStart(s: Acc, u: StartUsage): Acc {
    s.(usage := s.usage.(prompt := u.input, cacheRead := OrZero(u.cacheRead), cacheCreation := OrZero(u.cacheCreation)))
  }

  function OnBlockStart(s: Acc, index: nat, block: BlockStart): Acc {
    match block
    case ToolStart(id, name) => s.(meta := s.meta[index := (id, name)], inputs := s.inputs[index := ""])
    case OtherStart => s
  }

  function OnDelta(s: Acc, index: nat, delta: Delta): Acc {
    match delta
    case TextPiece(text) => s.(fullText := s.fullText + text, deltas := s.deltas + [text])
    case InputPiece(json) => if index in s.inputs then s.(inputs := s.inputs[index := s.inputs[index] + json]) else s
    case OtherDelta => s
  }

  function OnBlockStop(w: Wire, s: Acc, index: nat): Acc {
    if index !in s.inputs then s
    else
      var t := s.(inputs := s.inputs - {index});
      if index !in s.meta then t
      else
        t.(meta := s.meta - {index},
           toolCalls := s.toolCalls + [ToolCall(s.meta[index].0, s.meta[index].1, InputOf(w, s.inputs[index]))])
  }

  function OnMessageDelta(s: Acc, output: nat, reason: Option<string>): Acc {
    s.(usage := s.usage.(completion := output), stop := StopOf(reason))
  }

  /** A `data:` line under the current event type. */
  function OnData(w: Wire, s: Acc, data: string): Acc {
    if s.eventType == "message_start" then
      match w.messageStart(data) { case Some(u) => OnStart(s, u) case None => s }
    else if s.eventType == "content_block_start" then
      match w.blockStart(data) { case Some(e) => OnBlockStart(s, e.0, e.1) case None => s }
    else if s.eventType == "content_block_delta" then
      match w.blockDelta(data) { case Some(e) => OnDelta(s, e.0, e.1) case None => s }
    else if s.eventType == "content_block_stop" then
      match w.blockStop(data) { case Some(index) => OnBlockStop(w, s, index) case None => s }
    else if s.eventType == "message_delta" then
      match w.messageDelta(data) { case Some(e) => OnMessageDelta(s, e.0, e.1) case None => s }
    else s
  }

  function OnLine(w: Wire, s: Acc, line: string): Acc {
    match StripPrefix(line, "event: ")
    case Some(kind) => s.(eventType := kind)
    case None =>
      match StripPrefix(line, "data: ")
      case Some(data) => OnData(w, s, data)
      case None => s
  }

  // ---- The loop ----------------------------------------------------------------------------

  function Liner(w: Wire): (Acc, string) -> Acc {
    (s: Acc, line: string) => OnLine(w, s, TrimEnd(line))
  }

  /** The final reply; text beside tool calls travels in its own field. */
  function Reply(fullText: string, toolCalls: seq<ToolCall>, usage: Usage, stop: StopReason): Response {
    if toolCalls != [] then
      Response(if |toolCalls| == 1 then Call(toolCalls[0]) else MultiCall(toolCalls), usage, stop,
               if fullText == [] then None else Some(fullText))
    else Response(Text(fullText), usage, stop, None)
  }

  function ReplyOf(s: Acc): Response {
    Reply(s.fullText, s.toolCalls, s.usage, s.stop)
  }

  /** `chat_stream`'s loop. */
  class ChatStream {
    const w: Wire
    var buffer: string
    var eventType: string
    var fullText: string
    var deltas: seq<string>
    var toolCalls: seq<ToolCall>
    var inputs: map<nat, string>
    var meta: map<nat, (string, string)>
    var usage: Usage
    var stop: StopReason

    ghost function State(): Acc
      reads this
    {
      Acc(eventType, fullText, deltas, toolCalls, inputs, meta, usage, stop)
    }

    constructor (w: Wire)
      ensures this.w == w && buffer == "" && State() == START
    {
      this.w := w;
      buffer, eventType, fullText, deltas, toolCalls := "", "", "", [], [];
      inputs, meta, usage, stop := map[], map[], Usage(0, 0, 0, 0), EndTurn;
    }

    method HandleBlockStop(index: nat)
      modifies this
      ensures State() == OnBlockStop(w, old(State()), index) && buffer == old(buffer)
    {
      if index in inputs {
        var json := inputs[index];
        inputs := inputs - {index};
        if index in meta {
          var (id, name) := meta[index];
          meta := meta - {index};
          var parsed := w.value(json);
          toolCalls := toolCalls + [ToolCall(id, name, if parsed.Some? then parsed.value else Object([]))];
        }
      }
    }

    method HandleDelta(index: nat, delta: Delta)
      modifies this
      ensures State() == OnDelta(old(State()), index, delta) && buffer == old(buffer)
    {
      match delta {
        case TextPiece(text) =>
          fullText := fullText + text;
          deltas := deltas + [text];
        case InputPiece(json) =>
          if index in inputs {
            inputs := inputs[index := inputs[index] + json];
          }
        case OtherDelta =>
      }
    }

    method HandleData(data: string)
      modifies this
      ensures State() == OnData(w, old(State()), data) && buffer == old(buffer)
    {
      if eventType == "message_start" {
        var e := w.messageStart(data);
        if e.Some? {
          usage := usage.(prompt := e.value.input, cacheRead := OrZero(e.value.cacheRead),
                          cacheCreation := OrZero(e.value.cacheCreation));
        }
      } else if eventType == "content_block_start" {
        var e := w.blockStart(data);
        if e.Some? && e.value.1.ToolStart? {
          meta := meta[e.value.0 := (e.value.1.id, e.value.1.name)];
          inputs := inputs[e.value.0 := ""];
        }
      } else if eventType == "content_block_delta" {
        var e := w.blockDelta(data);
        if e.Some? {
          HandleDelta(e.value.0, e.value.1);
        }
      } else if eventType == "content_block_stop" {
        var e := w.blockStop(data);
        if e.Some? {
          HandleBlockStop(e.value);
        }
      } else if eventType == "message_delta" {
        var e := w.messageDelta(data);
        if e.Some? {
          usage := usage.(completion := e.value.0);
          stop := StopOf(e.value.1);
        }
      }
    }

    method HandleLine(line: string)
      modifies this
      ensures State() == OnLine(w, old(State()), line) && buffer == old(buffer)
    {
      var kind := StripPrefix(line, "event: ");
      if kind.Some? {
        eventType := kind.value;
      } else {
        var data := StripPrefix(line, "data: ");
        if data.Some? {
          HandleData(data.value);
        }
      }
    }

    method PushChunk(chunk: string)
      modifies this
      ensures (buffer, State()) == Drain(Liner(w), old(buffer) + chunk, old(State()))
    {
      buffer := buffer + chunk;
      var k := L.IndexOf(buffer, '\n');
      while k < |buffer|
        invariant k == L.IndexOf(buffer, '\n')
        invariant Drain(Liner(w), buffer, State()) == Drain(Liner(w), old(buffer) + chunk, old(State()))
        decreases |buffer|
      {
        var line := TrimEnd(buffer[..k]);
        buffer := buffer[k + 1..];
        HandleLine(line);
        k := L.IndexOf(buffer, '\n');
      }
    }

    method Run(chunks: seq<string>) returns (response: Response)
      requires buffer == "" && State() == START
      modifies this
      ensures (buffer, State()) == FeedAll(Liner(w), "", START, chunks)
      ensures response == ReplyOf(State())
    {
      for i := 0 to |chunks|
        invariant FeedAll(Liner(w), buffer, State(), chunks[i..]) == FeedAll(Liner(w), "", START, chunks)
      {
        assert chunks[i..][1..] == chunks[i + 1..];
        PushChunk(chunks[i]);
      }
      if toolCalls != [] {
        response := Response(if |toolCalls| == 1 then Call(toolCalls[0]) else MultiCall(toolCalls), usage, stop,
                             if fullText == [] then None else Some(fullText));
      } else {
        response := Response(Text(fullText), usage, stop, None);
      }
    }
  }

  // ---- The deltas ---------------------------------------------------------------------------

  lemma {:induction false} DeltaKeepsText(s: Acc, index: nat, delta: Delta)
    requires Concat(s.deltas) == s.fullText
    ensures var t := OnDelta(s, index, delta); Concat(t.deltas) == t.fullText
  {
    if delta.TextPiece? {
      ConcatSnoc(s.deltas, delta.text);
    }
  }

  lemma {:induction false} DataKeepsText(w: Wire, s: Acc, data: string)
    requires Concat(s.deltas) == s.fullText
    ensures Concat(OnData(w, s, data).deltas) == OnData(w, s, data).fullText
  {
    var e := w.blockDelta(data);
    if e.Some? {
      DeltaKeepsText(s, e.value.0, e.value.1);
    }
  }

  lemma {:induction false} LineKeepsText(w: Wire, s: Acc, line: string)
    requires Concat(s.deltas) == s.fullText
    ensures Concat(OnLine(w, s, line).deltas) == OnLine(w, s, line).fullText
  {
    var data := StripPrefix(line, "data: ");
    if StripPrefix(line, "event: ").None? && data.Some? {
      DataKeepsText(w, s, data.value);
    }
  }

  /** Whatever arrives, well-formed or not: the text deltas concatenate to the full text. */
  lemma {:induction false} DeltasAreTheText(w: Wire, buffer: string, s: Acc)
    requires Concat(s.deltas) == s.fullText
    ensures var t := Drain(Liner(w), buffer, s).1; Concat(t.deltas) == t.fullText
  {
    var p := (t: Acc) => Concat(t.deltas) == t.fullText;
    forall t, line | p(t) ensures p(Liner(w)(t, line)) {
      LineKeepsText(w, t, TrimEnd(line));
    }
    DrainKeeps(Liner(w), p, buffer, s);
  }

  // ---- The one-shot parser -----------------------------------------------------------------

  datatype Block = TextBlock(text: string) | ToolBlock(id: string, name: string, input: Json) | UnknownBlock

  datatype ApiResponse = ApiResponse(blocks: seq<Block>, start: StartUsage, output: nat, stopReason: Option<string>)

  function CallsOf(blocks: seq<Block>): seq<ToolCall> {
    if blocks == [] then []
    else
      (match blocks[0]
       case ToolBlock(id, name, input) => [ToolCall(id, name, input)]
       case _ => [])
      + CallsOf(blocks[1..])
  }

  function TextsOf(blocks: seq<Block>): seq<string> {
    if blocks == [] then []
    else (if blocks[0].TextBlock? then [blocks[0].text] else []) + TextsOf(blocks[1..])
  }

  /** `parse_response`. */
  function ParseResponse(r: ApiResponse): Response {
    var usage := Usage(r.start.input, r.output, OrZero(r.start.cacheRead), OrZero(r.start.cacheCreation));
    var calls, text := CallsOf(r.blocks), Concat(TextsOf(r.blocks));
    if calls != [] then
      Response(if |calls| == 1 then Call(calls[0]) else MultiCall(calls), usage, StopOf(r.stopReason),
               if text == [] then None else Some(text))
    else Response(Text(text), usage, StopOf(r.stopReason), None)
  }

  // ---- What a server sends -----------------------------------------------------------------

  /** A content block: its text in pieces, or its input and the text of it in pieces. */
  datatype SentBlock =
    | SentText(pieces: seq<string>)
    | SentTool(id: string, name: string, input: Json, pieces: seq<string>)
    | SentOther(count: nat)

  datatype Sent = Sent(start: StartUsage, blocks: seq<SentBlock>, output: nat, stopReason: Option<string>)

  /** The pieces of a tool's input decode to it; the input of a tool whose pieces do not decode is an
      empty object. */
  predicate Carries(w: Wire, b: SentBlock) {
    match b
    case SentTool(_, _, input, pieces) =>
      w.value(Concat(pieces)) == Some(input) || (w.value(Concat(pieces)) == None && input == Object([]))
    case _ => true
  }

  predicate AllCarry(w: Wire, blocks: seq<SentBlock>) {
    forall i :: 0 <= i < |blocks| ==> Carries(w, blocks[i])
  }

  function Assembled(b: SentBlock): Block {
    match b
    case SentText(pieces) => TextBlock(Concat(pieces))
    case SentTool(id, name, input, _) => ToolBlock(id, name, input)
    case SentOther(_) => UnknownBlock
  }

  function AssembledAll(blocks: seq<SentBlock>): (r: seq<Block>)
    ensures |r| == |blocks| && forall i :: 0 <= i < |r| ==> r[i] == Assembled(blocks[i])
  {
    seq(|blocks|, i requires 0 <= i < |blocks| => Assembled(blocks[i]))
  }

  /** The reply the same server would have sent in one piece. */
  function OneShot(sent: Sent): ApiResponse {
    ApiResponse(AssembledAll(sent.blocks), sent.start, sent.output, sent.stopReason)
  }

  /** The JSON texts of the payloads. */
  datatype Encoder = Encoder(
    messageStart: StartUsage -> string,
    blockStart: (nat, BlockStart) -> string,
    blockDelta: (nat, Delta) -> string,
    blockStop: nat -> string,
    messageDelta: (nat, Option<string>) -> string,
    messageStop: string)

  /** On one line, and not ending in whitespace. */
  predicate Payload(data: string) {
    '\n' !in data && data != [] && !IsWhitespace(data[|data| - 1])
  }

  /** Decoding gives back what was encoded. */
  ghost predicate Inverse(w: Wire, enc: Encoder) {
    && (forall u :: Payload(enc.messageStart(u)) && w.messageStart(enc.messageStart(u)) == Some(u))
    && (forall i: nat, b: BlockStart :: Payload(enc.blockStart(i, b)) && w.blockStart(enc.blockStart(i, b)) == Some((i, b)))
    && (forall i: nat, d: Delta :: Payload(enc.blockDelta(i, d)) && w.blockDelta(enc.blockDelta(i, d)) == Some((i, d)))
    && (forall i: nat :: Payload(enc.blockStop(i)) && w.blockStop(enc.blockStop(i)) == Some(i))
    && (forall n: nat, r: Option<string> :: Payload(enc.messageDelta(n, r)) && w.messageDelta(enc.messageDelta(n, r)) == Some((n, r)))
    && Payload(enc.messageStop)
  }

  datatype Event = Event(kind: string, data: string)

  function Start(enc: Encoder, i: nat, b: BlockStart): Event {
    Event("content_block_start", enc.blockStart(i, b))
  }

  function Piece(enc: Encoder, i: nat, d: Delta): Event {
    Event("content_block_delta", enc.blockDelta(i, d))
  }

  function End(enc: Encoder, i: nat): Event {
    Event("content_block_stop", enc.blockStop(i))
  }

  function TextPieces(enc: Encoder, i: nat, pieces: seq<string>): seq<Event> {
    if pieces == [] then [] else [Piece(enc, i, TextPiece(pieces[0]))] + TextPieces(enc, i, pieces[1..])
  }

  function InputPieces(enc: Encoder, i: nat, pieces: seq<string>): seq<Event> {
    if pieces == [] then [] else [Piece(enc, i, InputPiece(pieces[0]))] + InputPieces(enc, i, pieces[1..])
  }

  function OtherPieces(enc: Encoder, i: nat, count: nat): seq<Event> {
    if count == 0 then [] else [Piece(enc, i, OtherDelta)] + OtherPieces(enc, i, count - 1)
  }

  function BlockEvents(enc: Encoder, i: nat, b: SentBlock): seq<Event> {
    match b
    case SentText(pieces) => [Start(enc, i, OtherStart)] + TextPieces(enc, i, pieces) + [End(enc, i)]
    case SentTool(id, name, _, pieces) => [Start(enc, i, ToolStart(id, name))] + InputPieces(enc, i, pieces) + [End(enc, i)]
    case SentOther(count) => [Start(enc, i, OtherStart)] + OtherPieces(enc, i, count) + [End(enc, i)]
  }

  function BlocksEvents(enc: Encoder, i: nat, blocks: seq<SentBlock>): seq<Event>
    decreases |blocks|
  {
    if blocks == [] then [] else BlockEvents(enc, i, blocks[0]) + BlocksEvents(enc, i + 1, blocks[1..])
  }

  function First(enc: Encoder, sent: Sent): Event {
    Event("message_start", enc.messageStart(sent.start))
  }

  function Third(enc: Encoder, sent: Sent): Event {
    Event("message_delta", enc.messageDelta(sent.output, sent.stopReason))
  }

  function Last(enc: Encoder): Event {
    Event("message_stop", enc.messageStop)
  }

  /** One block after the other. */
  function Events(enc: Encoder, sent: Sent): seq<Event> {
    [First(enc, sent)] + BlocksEvents(enc, 0, sent.blocks) + [Third(enc, sent)] + [Last(enc)]
  }

  /** `pad` is what ends a line before its line feed: nothing, or a carriage return. */
  function PrintEvent(e: Event, pad: string): string {
    ("event: " + e.kind + pad + "\n") + ("data: " + e.data + pad + "\n") + (pad + "\n")
  }

  function Print(events: seq<Event>, pad: string): string {
    if events == [] then "" else PrintEvent(events[0], pad) + Print(events[1..], pad)
  }

  predicate Pad(pad: string) {
    AllWhitespace(pad) && '\n' !in pad
  }

  // ---- Draining a printed stream -----------------------------------------------------------

  /** An event's effect, leaving aside the event type that stays behind. */
  function OnEvent(w: Wire, s: Acc, e: Event): Acc {
    OnData(w, s.(eventType := e.kind), e.data).(eventType := "")
  }

  function OnEvents(w: Wire, s: Acc, events: seq<Event>): Acc
    decreases |events|
  {
    if events == [] then s else OnEvents(w, OnEvent(w, s, events[0]), events[1..])
  }

  lemma {:induction false} OnEventsAppend(w: Wire, s: Acc, a: seq<Event>, b: seq<Event>)
    ensures OnEvents(w, s, a + b) == OnEvents(w, OnEvents(w, s, a), b)
    decreases |a|
  {
    if a == [] {
      assert a + b == b;
    } else {
      assert (a + b)[1..] == a[1..] + b;
      OnEventsAppend(w, OnEvent(w, s, a[0]), a[1..], b);
    }
  }

  lemma {:induction false} OnOne(w: Wire, s: Acc, e: Event)
    ensures OnEvents(w, s, [e]) == OnEvent(w, s, e)
  {
    assert [e][1..] == [];
  }

  lemma {:induction false} OnFramed(w: Wire, s: Acc, first: Event, middle: seq<Event>, last: Event)
    ensures OnEvents(w, s, [first] + middle + [last]) == OnEvent(w, OnEvents(w, OnEvent(w, s, first), middle), last)
  {
    OnEventsAppend(w, s, [first] + middle, [last]);
    OnEventsAppend(w, s, [first], middle);
    OnOne(w, s, first);
    OnOne(w, OnEvents(w, OnEvent(w, s, first), middle), last);
  }

  lemma {:induction false} TrimPadded(text: string, pad: string)
    requires AllWhitespace(pad) && (text == [] || !IsWhitespace(text[|text| - 1]))
    ensures TrimEnd(text + pad) == text
  {
    var all := text + pad;
    assert forall j :: |text| <= j < |all| ==> all[j] == pad[j - |text|];
    assert text != [] ==> all[|text| - 1] == text[|text| - 1];
  }

  predicate Plain(e: Event) {
    && '\n' !in e.kind && e.kind != [] && !IsWhitespace(e.kind[|e.kind| - 1])
    && Payload(e.data)
  }

  lemma {:induction false} EventLines(w: Wire, s: Acc, e: Event)
    ensures OnLine(w, s, "event: " + e.kind) == s.(eventType := e.kind)
    ensures OnLine(w, s, "data: " + e.data) == OnData(w, s, e.data)
    ensures OnLine(w, s, "") == s
  {
    assert ("event: " + e.kind)[|"event: "|..] == e.kind;
    assert ("data: " + e.data)[|"data: "|..] == e.data;
    assert ("data: " + e.data)[0] != "event: "[0];
  }

  /** On one line and ending in something other than whitespace, or empty. */
  predicate Line(text: string) {
    '\n' !in text && (text == [] || !IsWhitespace(text[|text| - 1]))
  }

  lemma {:induction false} PrefixedLine(prefix: string, text: string)
    requires '\n' !in prefix && Line(text) && text != []
    ensures Line(prefix + text)
  {
    assert (prefix + text)[|prefix + text| - 1] == text[|text| - 1];
  }

  lemma {:induction false} DrainThree<S>(step: (S, string) -> S, t1: string, t2: string, pad: string, rest: string,
        s: S)
    requires Line(t1) && Line(t2) && Pad(pad)
    ensures Drain(step, (t1 + pad + "\n") + (t2 + pad + "\n") + (pad + "\n") + rest, s)
      == Drain(step, rest, step(step(step(s, t1 + pad), t2 + pad), pad))
  {
    var l1, l2, l3 := t1 + pad + "\n", t2 + pad + "\n", pad + "\n";
    assert l1 + l2 + l3 + rest == l1 + (l2 + (l3 + rest));
    DrainOne(step, t1 + pad, l2 + (l3 + rest), s);
    DrainOne(step, t2 + pad, l3 + rest, step(s, t1 + pad));
    DrainOne(step, pad, rest, step(step(s, t1 + pad), t2 + pad));
  }

  lemma {:induction false} LinerTrims(w: Wire, text: string, pad: string, s: Acc)
    requires Line(text) && Pad(pad)
    ensures Liner(w)(s, text + pad) == OnLine(w, s, text)
  {
    TrimPadded(text, pad);
  }

  lemma {:induction false} DrainEvent(w: Wire, e: Event, pad: string, rest: string, s: Acc)
    requires Plain(e) && Pad(pad)
    ensures Drain(Liner(w), PrintEvent(e, pad) + rest, s)
      == Drain(Liner(w), rest, OnData(w, s.(eventType := e.kind), e.data))
  {
    PrefixedLine("event: ", e.kind);
    PrefixedLine("data: ", e.data);
    DrainThree(Liner(w), "event: " + e.kind, "data: " + e.data, pad, rest, s);
    var s1 := s.(eventType := e.kind);
    var s2 := OnData(w, s1, e.data);
    EventLines(w, s, e);
    EventLines(w, s1, e);
    EventLines(w, s2, e);
    LinerTrims(w, "event: " + e.kind, pad, s);
    LinerTrims(w, "data: " + e.data, pad, s1);
    LinerTrims(w, "", pad, s2);
    assert "" + pad == pad;
  }

  ghost predicate AllPlain(events: seq<Event>) {
    forall i :: 0 <= i < |events| ==> Plain(events[i])
  }

  lemma {:induction false} OnDataIgnoresType(w: Wire, s: Acc, e: Event, kind: string)
    ensures OnEvent(w, s.(eventType := kind), e) == OnEvent(w, s, e)
  {
    assert s.(eventType := kind).(eventType := e.kind) == s.(eventType := e.kind);
  }

  /** Draining a printed stream is handling its events. */
  lemma {:induction false} DrainPrinted(w: Wire, events: seq<Event>, pad: string, s: Acc)
    requires AllPlain(events) && Pad(pad)
    ensures
      var (rest, t) := Drain(Liner(w), Print(events, pad), s);
      rest == "" && t.(eventType := "") == OnEvents(w, s.(eventType := ""), events)
    decreases |events|
  {
    if events != [] {
      var e := events[0];
      var t := OnData(w, s.(eventType := e.kind), e.data);
      DrainEvent(w, e, pad, Print(events[1..], pad), s);
      DrainPrinted(w, events[1..], pad, t);
      OnDataIgnoresType(w, s, e, "");
    }
  }

  // ---- The events of the blocks ------------------------------------------------------------

  /** No tool input is being collected. */
  predicate Settled(s: Acc) {
    s.inputs == map[] && s.meta == map[] && s.eventType == ""
  }

  lemma {:induction false} OnCons(w: Wire, s: Acc, e: Event, rest: seq<Event>)
    ensures OnEvents(w, s, [e] + rest) == OnEvents(w, OnEvent(w, s, e), rest)
  {
    assert ([e] + rest)[1..] == rest;
  }

  lemma {:induction false} OnPiece(w: Wire, enc: Encoder, s: Acc, i: nat, d: Delta)
    requires Inverse(w, enc) && s.eventType == ""
    ensures OnEvent(w, s, Piece(enc, i, d)) == OnDelta(s, i, d)
  {
    assert w.blockDelta(enc.blockDelta(i, d)) == Some((i, d));
  }

  lemma {:induction false} OnTextPieces(w: Wire, enc: Encoder, s: Acc, i: nat, pieces: seq<string>)
    requires Inverse(w, enc) && s.eventType == ""
    ensures OnEvents(w, s, TextPieces(enc, i, pieces))
      == s.(fullText := s.fullText + Concat(pieces), deltas := s.deltas + pieces)
    decreases |pieces|
  {
    if pieces == [] {
      assert s.fullText + "" == s.fullText && s.deltas + [] == s.deltas;
    } else {
      var piece, rest := pieces[0], pieces[1..];
      var t := OnDelta(s, i, TextPiece(piece));
      OnPiece(w, enc, s, i, TextPiece(piece));
      OnTextPieces(w, enc, t, i, rest);
      OnCons(w, s, Piece(enc, i, TextPiece(piece)), TextPieces(enc, i, rest));
      Assoc(s.fullText, piece, Concat(rest));
      Assoc(s.deltas, [piece], rest);
      assert [piece] + rest == pieces;
    }
  }

  lemma {:induction false} OnInputPieces(w: Wire, enc: Encoder, s: Acc, i: nat, pieces: seq<string>)
    requires Inverse(w, enc) && s.eventType == "" && i in s.inputs
    ensures OnEvents(w, s, InputPieces(enc, i, pieces)) == s.(inputs := s.inputs[i := s.inputs[i] + Concat(pieces)])
    decreases |pieces|
  {
    if pieces == [] {
      assert s.inputs[i] + "" == s.inputs[i];
      assert s.inputs[i := s.inputs[i]] == s.inputs;
    } else {
      var piece, rest := pieces[0], pieces[1..];
      var t := OnDelta(s, i, InputPiece(piece));
      OnPiece(w, enc, s, i, InputPiece(piece));
      OnInputPieces(w, enc, t, i, rest);
      OnCons(w, s, Piece(enc, i, InputPiece(piece)), InputPieces(enc, i, rest));
      Assoc(s.inputs[i], piece, Concat(rest));
    }
  }

  lemma {:induction false} OnOtherPieces(w: Wire, enc: Encoder, s: Acc, i: nat, count: nat)
    requires Inverse(w, enc) && s.eventType == ""
    ensures OnEvents(w, s, OtherPieces(enc, i, count)) == s
  {
    if count > 0 {
      OnPiece(w, enc, s, i, OtherDelta);
      OnOtherPieces(w, enc, s, i, count - 1);
      OnCons(w, s, Piece(enc, i, OtherDelta), OtherPieces(enc, i, count - 1));
    }
  }

  /** What one block adds. */
  function Plus(s: Acc, pieces: seq<string>, calls: seq<ToolCall>): Acc {
    s.(fullText := s.fullText + Concat(pieces), deltas := s.deltas + pieces, toolCalls := s.toolCalls + calls)
  }

  function PiecesOf(b: SentBlock): seq<string> {
    if b.SentText? then b.pieces else []
  }

  lemma {:induction false} OnBlockEvents(w: Wire, enc: Encoder, s: Acc, i: nat, b: SentBlock)
    requires Inverse(w, enc) && Settled(s) && Carries(w, b)
    ensures OnEvents(w, s, BlockEvents(enc, i, b)) == Plus(s, PiecesOf(b), CallsOf([Assembled(b)]))
  {
    assert [Assembled(b)][1..] == [];
    match b
    case SentText(pieces) =>
      OnBlock(w, enc, s, i, OtherStart, TextPieces(enc, i, pieces));
      OnTextPieces(w, enc, s, i, pieces);
      assert s.toolCalls + [] == s.toolCalls;
    case SentTool(id, name, _, pieces) =>
      OnBlock(w, enc, s, i, ToolStart(id, name), InputPieces(enc, i, pieces));
      OnInputPieces(w, enc, OnBlockStart(s, i, ToolStart(id, name)), i, pieces);
      ToolBlockDone(w, s, i, id, name, Concat(pieces));
    case SentOther(count) =>
      OnBlock(w, enc, s, i, OtherStart, OtherPieces(enc, i, count));
      OnOtherPieces(w, enc, s, i, count);
      PlusNothing(s);
  }

  /** A block is opened, its pieces are handled, and it is closed. */
  lemma {:induction false} OnBlock(w: Wire, enc: Encoder, s: Acc, i: nat, b: BlockStart, middle: seq<Event>)
    requires Inverse(w, enc) && s.eventType == ""
    ensures
      OnEvents(w, s, [Start(enc, i, b)] + middle + [End(enc, i)])
      == OnBlockStop(w, OnEvents(w, OnBlockStart(s, i, b), middle), i).(eventType := "")
  {
    OnFramed(w, s, Start(enc, i, b), middle, End(enc, i));
    OnStartAndEnd(w, enc, s, i, b);
    OnStartAndEnd(w, enc, OnEvents(w, OnBlockStart(s, i, b), middle), i, b);
  }

  lemma {:induction false} OnStartAndEnd(w: Wire, enc: Encoder, s: Acc, i: nat, b: BlockStart)
    requires Inverse(w, enc)
    ensures OnEvent(w, s, Start(enc, i, b)) == OnBlockStart(s, i, b).(eventType := "")
    ensures OnEvent(w, s, End(enc, i)) == OnBlockStop(w, s, i).(eventType := "")
  {
    assert w.blockStart(enc.blockStart(i, b)) == Some((i, b));
    assert w.blockStop(enc.blockStop(i)) == Some(i);
  }

  lemma {:induction false} ToolBlockDone(w: Wire, s: Acc, i: nat, id: string, name: string, input: string)
    requires Settled(s)
    ensures
      var t := OnBlockStart(s, i, ToolStart(id, name));
      OnBlockStop(w, t.(inputs := t.inputs[i := t.inputs[i] + input]), i) == Plus(s, [], [ToolCall(id, name, InputOf(w, input))])
  {
    var t := OnBlockStart(s, i, ToolStart(id, name));
    var u := t.(inputs := t.inputs[i := t.inputs[i] + input]);
    assert "" + input == input;
    assert u.inputs - {i} == map[] && u.meta - {i} == map[];
    assert s.fullText + "" == s.fullText && s.deltas + [] == s.deltas;
  }

  lemma {:induction false} PlusNothing(s: Acc)
    ensures Plus(s, [], []) == s
  {
    assert s.fullText + "" == s.fullText && s.deltas + [] == s.deltas && s.toolCalls + [] == s.toolCalls;
  }

  function AllPieces(blocks: seq<SentBlock>): seq<string> {
    if blocks == [] then [] else PiecesOf(blocks[0]) + AllPieces(blocks[1..])
  }

  lemma {:induction false} CallsAppend(a: seq<Block>, b: seq<Block>)
    ensures CallsOf(a + b) == CallsOf(a) + CallsOf(b)
  {
    if a == [] {
      assert a + b == b;
    } else {
      assert (a + b)[1..] == a[1..] + b;
      CallsAppend(a[1..], b);
    }
  }

  lemma {:induction false} PlusPlus(s: Acc, p: seq<string>, c: seq<ToolCall>, q: seq<string>, d: seq<ToolCall>)
    ensures Plus(Plus(s, p, c), q, d) == Plus(s, p + q, c + d)
  {
    ConcatAppend(p, q);
    assert s.fullText + Concat(p) + Concat(q) == s.fullText + Concat(p + q);
    assert s.deltas + p + q == s.deltas + (p + q);
    assert s.toolCalls + c + d == s.toolCalls + (c + d);
  }

  lemma {:induction false} OnBlocksEvents(w: Wire, enc: Encoder, s: Acc, i: nat, blocks: seq<SentBlock>)
    requires Inverse(w, enc) && Settled(s) && AllCarry(w, blocks)
    ensures OnEvents(w, s, BlocksEvents(enc, i, blocks)) == Plus(s, AllPieces(blocks), CallsOf(AssembledAll(blocks)))
    decreases |blocks|
  {
    if blocks == [] {
      assert s.fullText + "" == s.fullText && s.deltas + [] == s.deltas && s.toolCalls + [] == s.toolCalls;
    } else {
      var first, rest := Assembled(blocks[0]), AssembledAll(blocks[1..]);
      OnBlockEvents(w, enc, s, i, blocks[0]);
      var t := Plus(s, PiecesOf(blocks[0]), CallsOf([first]));
      OnBlocksEvents(w, enc, t, i + 1, blocks[1..]);
      OnBoth(w, s, BlockEvents(enc, i, blocks[0]), BlocksEvents(enc, i + 1, blocks[1..]), PiecesOf(blocks[0]),
        CallsOf([first]), AllPieces(blocks[1..]), CallsOf(rest));
      assert AssembledAll(blocks) == [first] + rest;
      CallsAppend([first], rest);
    }
  }

  lemma {:induction false} OnBoth(w: Wire, s: Acc, a: seq<Event>, b: seq<Event>, p: seq<string>, c: seq<ToolCall>,
        q: seq<string>, d: seq<ToolCall>)
    requires OnEvents(w, s, a) == Plus(s, p, c) && OnEvents(w, Plus(s, p, c), b) == Plus(Plus(s, p, c), q, d)
    ensures OnEvents(w, s, a + b) == Plus(s, p + q, c + d)
  {
    OnEventsAppend(w, s, a, b);
    PlusPlus(s, p, c, q, d);
  }

  /** The streamed pieces make up the texts of the assembled blocks. */
  lemma {:induction false} PiecesMakeTexts(blocks: seq<SentBlock>)
    ensures Concat(AllPieces(blocks)) == Concat(TextsOf(AssembledAll(blocks)))
  {
    if blocks != [] {
      var rest := AssembledAll(blocks[1..]);
      PiecesMakeTexts(blocks[1..]);
      assert AssembledAll(blocks)[1..] == rest;
      ConcatAppend(PiecesOf(blocks[0]), AllPieces(blocks[1..]));
      if blocks[0].SentText? {
        assert ([Concat(blocks[0].pieces)] + TextsOf(rest))[1..] == TextsOf(rest);
      } else {
        assert [] + TextsOf(rest) == TextsOf(rest);
        assert Concat([]) + Concat(AllPieces(blocks[1..])) == Concat(AllPieces(blocks[1..]));
      }
    }
  }

  lemma {:induction false} OnSent(w: Wire, enc: Encoder, sent: Sent)
    requires Inverse(w, enc) && AllCarry(w, sent.blocks)
    ensures ReplyOf(OnEvents(w, START, Events(enc, sent))) == ParseResponse(OneShot(sent))
    ensures OnEvents(w, START, Events(enc, sent)).deltas == AllPieces(sent.blocks)
  {
    var s1 := OnStart(START, sent.start);
    var middle := BlocksEvents(enc, 0, sent.blocks);
    var s2 := OnEvents(w, s1, middle);
    OnBlocksEvents(w, enc, s1, 0, sent.blocks);
    OnFirstAndLast(w, enc, sent, s2);
    OnFramed(w, START, First(enc, sent), middle, Third(enc, sent));
    OnEventsAppend(w, START, [First(enc, sent)] + middle + [Third(enc, sent)], [Last(enc)]);
    OnOne(w, OnMessageDelta(s2, sent.output, sent.stopReason), Last(enc));
    SentReply(w, sent, s2);
  }

  /** The events around the blocks. */
  lemma {:induction false} OnFirstAndLast(w: Wire, enc: Encoder, sent: Sent, s: Acc)
    requires Inverse(w, enc) && s.eventType == ""
    ensures OnEvent(w, START, First(enc, sent)) == OnStart(START, sent.start)
    ensures OnEvent(w, s, Third(enc, sent)) == OnMessageDelta(s, sent.output, sent.stopReason)
    ensures OnEvent(w, OnMessageDelta(s, sent.output, sent.stopReason), Last(enc)) == OnMessageDelta(s, sent.output, sent.stopReason)
  {
    assert w.messageStart(enc.messageStart(sent.start)) == Some(sent.start);
    assert w.messageDelta(enc.messageDelta(sent.output, sent.stopReason)) == Some((sent.output, sent.stopReason));
  }

  lemma {:induction false} SentReply(w: Wire, sent: Sent, s: Acc)
    requires s == Plus(OnStart(START, sent.start), AllPieces(sent.blocks), CallsOf(AssembledAll(sent.blocks)))
    ensures ReplyOf(OnMessageDelta(s, sent.output, sent.stopReason)) == ParseResponse(OneShot(sent))
    ensures s.deltas == AllPieces(sent.blocks)
  {
    PiecesMakeTexts(sent.blocks);
    assert "" + Concat(AllPieces(sent.blocks)) == Concat(AllPieces(sent.blocks));
    assert [] + CallsOf(AssembledAll(sent.blocks)) == CallsOf(AssembledAll(sent.blocks));
    assert [] + AllPieces(sent.blocks) == AllPieces(sent.blocks);
  }

  lemma {:induction false} EventsArePlain(w: Wire, enc: Encoder, sent: Sent)
    requires Inverse(w, enc)
    ensures AllPlain(Events(enc, sent))
  {
    BlocksArePlain(w, enc, 0, sent.blocks);
    EndsArePlain(w, enc, sent);
    PlainFramed(First(enc, sent), BlocksEvents(enc, 0, sent.blocks), Third(enc, sent));
    PlainSnoc([First(enc, sent)] + BlocksEvents(enc, 0, sent.blocks) + [Third(enc, sent)], Last(enc));
  }

  lemma {:induction false} EndsArePlain(w: Wire, enc: Encoder, sent: Sent)
    requires Inverse(w, enc)
    ensures Plain(First(enc, sent)) && Plain(Third(enc, sent)) && Plain(Last(enc))
  {
  }

  lemma {:induction false} PlainSnoc(events: seq<Event>, e: Event)
    requires AllPlain(events) && Plain(e)
    ensures AllPlain(events + [e])
  {
  }

  lemma {:induction false} PlainCons(e: Event, events: seq<Event>)
    requires Plain(e) && AllPlain(events)
    ensures AllPlain([e] + events)
  {
  }

  lemma {:induction false} PieceIsPlain(w: Wire, enc: Encoder, i: nat, d: Delta)
    requires Inverse(w, enc)
    ensures Plain(Piece(enc, i, d))
  {
  }

  lemma {:induction false} TextPiecesArePlain(w: Wire, enc: Encoder, i: nat, pieces: seq<string>)
    requires Inverse(w, enc)
    ensures AllPlain(TextPieces(enc, i, pieces))
  {
    if pieces != [] {
      TextPiecesArePlain(w, enc, i, pieces[1..]);
      PieceIsPlain(w, enc, i, TextPiece(pieces[0]));
      PlainCons(Piece(enc, i, TextPiece(pieces[0])), TextPieces(enc, i, pieces[1..]));
    }
  }

  lemma {:induction false} InputPiecesArePlain(w: Wire, enc: Encoder, i: nat, pieces: seq<string>)
    requires Inverse(w, enc)
    ensures AllPlain(InputPieces(enc, i, pieces))
  {
    if pieces != [] {
      InputPiecesArePlain(w, enc, i, pieces[1..]);
      PieceIsPlain(w, enc, i, InputPiece(pieces[0]));
      PlainCons(Piece(enc, i, InputPiece(pieces[0])), InputPieces(enc, i, pieces[1..]));
    }
  }

  lemma {:induction false} OtherPiecesArePlain(w: Wire, enc: Encoder, i: nat, count: nat)
    requires Inverse(w, enc)
    ensures AllPlain(OtherPieces(enc, i, count))
  {
    if count > 0 {
      OtherPiecesArePlain(w, enc, i, count - 1);
      PieceIsPlain(w, enc, i, OtherDelta);
      PlainCons(Piece(enc, i, OtherDelta), OtherPieces(enc, i, count - 1));
    }
  }

  lemma {:induction false} PlainFramed(first: Event, middle: seq<Event>, last: Event)
    requires Plain(first) && AllPlain(middle) && Plain(last)
    ensures AllPlain([first] + middle + [last])
  {
  }

  lemma {:induction false} StartAndEndArePlain(w: Wire, enc: Encoder, i: nat, b: BlockStart)
    requires Inverse(w, enc)
    ensures Plain(Start(enc, i, b)) && Plain(End(enc, i))
  {
  }

  lemma {:induction false} BlockIsPlain(w: Wire, enc: Encoder, i: nat, b: SentBlock)
    requires Inverse(w, enc)
    ensures AllPlain(BlockEvents(enc, i, b))
  {
    match b
    case SentText(pieces) =>
      StartAndEndArePlain(w, enc, i, OtherStart);
      TextPiecesArePlain(w, enc, i, pieces);
      PlainFramed(Start(enc, i, OtherStart), TextPieces(enc, i, pieces), End(enc, i));
    case SentTool(id, name, _, pieces) =>
      StartAndEndArePlain(w, enc, i, ToolStart(id, name));
      InputPiecesArePlain(w, enc, i, pieces);
      PlainFramed(Start(enc, i, ToolStart(id, name)), InputPieces(enc, i, pieces), End(enc, i));
    case SentOther(count) =>
      StartAndEndArePlain(w, enc, i, OtherStart);
      OtherPiecesArePlain(w, enc, i, count);
      PlainFramed(Start(enc, i, OtherStart), OtherPieces(enc, i, count), End(enc, i));
  }

  lemma {:induction false} BlocksArePlain(w: Wire, enc: Encoder, i: nat, blocks: seq<SentBlock>)
    requires Inverse(w, enc)
    ensures AllPlain(BlocksEvents(enc, i, blocks))
    decreases |blocks|
  {
    if blocks != [] {
      BlockIsPlain(w, enc, i, blocks[0]);
      BlocksArePlain(w, enc, i + 1, blocks[1..]);
    }
  }

  /** For blocks sent one after the other, and for any cuts: of the texts and inputs into pieces, of
      the stream into chunks, with or without carriage returns, the streamed reply is what
      `parse_response` makes of the same reply sent in one piece, its tool inputs as JSON values, and
      the text deltas are the pieces. */
  lemma {:induction false} StreamAgreesWithOneShot(w: Wire, enc: Encoder, sent: Sent, pad: string, chunks: seq<string>)
    requires Inverse(w, enc) && AllCarry(w, sent.blocks)
    requires Pad(pad) && Concat(chunks) == Print(Events(enc, sent), pad)
    ensures
      var (rest, t) := FeedAll(Liner(w), "", START, chunks);
      && rest == ""
      && ReplyOf(t) == ParseResponse(OneShot(sent))
      && t.deltas == AllPieces(sent.blocks)
  {
    FeedIsDrain(Liner(w), "", START, chunks);
    assert "" + Concat(chunks) == Concat(chunks);
    EventsArePlain(w, enc, sent);
    DrainPrinted(w, Events(enc, sent), pad, START);
    OnSent(w, enc, sent);
  }
}

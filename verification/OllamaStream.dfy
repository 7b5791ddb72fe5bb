/** The Ollama stream of newline-delimited JSON (crates/rustykrab-providers/src/ollama.rs): the loop of
    `chat_stream` and the one-shot `parse_response` it has to agree with.

    Unlike the Anthropic loop this one gives up at the first line that does not decode.  Identifiers of
    tool calls are made up by the client; `Wire.newId(k)` is the k-th. */
module OllamaStream {
  import opened Options
  import opened Framing
  import opened Strings
  import opened Json
  import opened Messages
  import L = Lines

  datatype RawCall = RawCall(name: string, arguments: Json)

  /** One line of the stream. */
  datatype Part = Part(
    content: Option<string>,
    calls: Option<seq<RawCall>>,
    done: bool,
    doneReason: Option<string>,
    promptCount: Option<nat>,
    evalCount: Option<nat>)

  /** `serde_json::from_str` for a line and for any value, and identifiers. */
  datatype Wire = Wire(
    part: string -> Option<Part>,
    value: string -> Option<Json>,
    newId: nat -> string)

  datatype Usage = Usage(prompt: nat, completion: nat)

  datatype Response = Response(content: Content, usage: Usage, stop: StopReason)

  function OrZero(n: Option<nat>): nat {
    if n.Some? then n.value else 0
  }

  /** `normalize_arguments`: an object that came as a JSON string is parsed. */
  function Normalized(w: Wire, arguments: Json): Json {
    if arguments.String? && w.value(arguments.s).Some? && w.value(arguments.s).value.Object?
    then w.value(arguments.s).value
    else arguments
  }

  /** The calls in order, numbered from `n`. */
  function Calls(w: Wire, raw: seq<RawCall>, n: nat): seq<ToolCall> {
    if raw == [] then []
    else
      Calls(w, raw[..|raw| - 1], n)
      + [ToolCall(w.newId(n + |raw| - 1), raw[|raw| - 1].name, Normalized(w, raw[|raw| - 1].arguments))]
  }

  function TextStop(reason: Option<string>): StopReason {
    if reason == Some("length") then MaxTokens else EndTurn
  }

  // ---- The one-shot parser -----------------------------------------------------------------

  datatype ApiResponse = ApiResponse(
    content: Option<string>,
    calls: Option<seq<RawCall>>,
    doneReason: Option<string>,
    promptCount: Option<nat>,
    evalCount: Option<nat>)

  /** `parse_response`. */
  function ParseResponse(w: Wire, r: ApiResponse): Response {
    var usage := Usage(OrZero(r.promptCount), OrZero(r.evalCount));
    if r.calls.Some? && r.calls.value != [] then
      var calls := Calls(w, r.calls.value, 0);
      Response(if |r.calls.value| == 1 then Call(calls[0]) else MultiCall(calls), usage, ToolUse)
    else Response(Text(if r.content.Some? then r.content.value else ""), usage, TextStop(r.doneReason))
  }

  // ---- The loop ----------------------------------------------------------------------------

  datatype Acc = Acc(
    fullText: string,
    deltas: seq<string>,
    toolCalls: seq<ToolCall>,
    prompt: nat,
    completion: nat,
    doneReason: Option<string>,
    failed: bool)

  const START := Acc("", [], [], 0, 0, None, false)

  function OnContent(s: Acc, content: Option<string>): Acc {
    if content.Some? && content.value != [] then
      s.(fullText := s.fullText + content.value, deltas := s.deltas + [content.value])
    else s
  }

  function OnCalls(w: Wire, s: Acc, calls: Option<seq<RawCall>>): Acc {
    if calls.Some? then s.(toolCalls := s.toolCalls + Calls(w, calls.value, |s.toolCalls|)) else s
  }

  function OnDone(s: Acc, p: Part): Acc {
    if p.done then s.(prompt := OrZero(p.promptCount), completion := OrZero(p.evalCount), doneReason := p.doneReason)
    else s
  }

  function OnPart(w: Wire, s: Acc, p: Part): Acc {
    OnDone(OnCalls(w, OnContent(s, p.content), p.calls), p)
  }

  function Trim(s: string): string {
    TrimStart(TrimEnd(s))
  }

  /** After a failure nothing more is read. */
  function OnLine(w: Wire, s: Acc, line: string): Acc {
    var text := Trim(line);
    if s.failed || text == [] then s
    else
      match w.part(text)
      case Some(p) => OnPart(w, s, p)
      case None => s.(failed := true)
  }

  function Liner(w: Wire): (Acc, string) -> Acc {
    (s: Acc, line: string) => OnLine(w, s, line)
  }

  function ReplyOf(s: Acc): Outcome<Response, ()> {
    if s.failed then Err(())
    else
      var usage := Usage(s.prompt, s.completion);
      if s.toolCalls != [] then
        Ok(Response(if |s.toolCalls| == 1 then Call(s.toolCalls[0]) else MultiCall(s.toolCalls), usage, ToolUse))
      else Ok(Response(Text(s.fullText), usage, TextStop(s.doneReason)))
  }

  class ChatStream {
    const w: Wire
    var buffer: string
    var fullText: string
    var deltas: seq<string>
    var toolCalls: seq<ToolCall>
    var prompt: nat
    var completion: nat
    var doneReason: Option<string>

    ghost function State(failed: bool): Acc
      reads this
    {
      Acc(fullText, deltas, toolCalls, prompt, completion, doneReason, failed)
    }

    constructor (w: Wire)
      ensures this.w == w && buffer == "" && State(false) == START
    {
      this.w := w;
      buffer, fullText, deltas, toolCalls := "", "", [], [];
      prompt, completion, doneReason := 0, 0, None;
    }

    method PushCalls(calls: seq<RawCall>)
      modifies this`toolCalls
      ensures toolCalls == old(toolCalls) + Calls(w, calls, |old(toolCalls)|)
    {
      for i := 0 to |calls|
        invariant |toolCalls| == |old(toolCalls)| + i
        invariant toolCalls == old(toolCalls) + Calls(w, calls[..i], |old(toolCalls)|)
      {
        assert calls[..i + 1][..i] == calls[..i];
        toolCalls := toolCalls + [ToolCall(w.newId(|toolCalls|), calls[i].name, Normalized(w, calls[i].arguments))];
      }
      assert calls[..|calls|] == calls;
    }

    /** One complete line; `ok` is false when it does not decode. */
    method HandleLine(line: string) returns (ok: bool)
      modifies this
      ensures buffer == old(buffer) && State(!ok) == OnLine(w, old(State(false)), line)
    {
      var text := Trim(line);
      if text == [] {
        return true;
      }
      var decoded := w.part(text);
      if decoded.None? {
        return false;
      }
      var part := decoded.value;
      if part.content.Some? && part.content.value != [] {
        fullText := fullText + part.content.value;
        deltas := deltas + [part.content.value];
      }
      if part.calls.Some? {
        PushCalls(part.calls.value);
      }
      if part.done {
        prompt, completion, doneReason := OrZero(part.promptCount), OrZero(part.evalCount), part.doneReason;
      }
      ok := true;
    }

    method PushChunk(chunk: string) returns (ok: bool)
      modifies this
      ensures Drain(Liner(w), old(buffer) + chunk, old(State(false))).1 == State(!ok)
      ensures ok ==> Drain(Liner(w), old(buffer) + chunk, old(State(false))).0 == buffer
    {
      ghost var goal := Drain(Liner(w), buffer + chunk, State(false));
      buffer := buffer + chunk;
      var k := L.IndexOf(buffer, '\n');
      while k < |buffer|
        invariant k == L.IndexOf(buffer, '\n')
        invariant Drain(Liner(w), buffer, State(false)) == goal
        decreases |buffer|
      {
        var line := buffer[..k];
        buffer := buffer[k + 1..];
        ok := HandleLine(line);
        if !ok {
          FailureStays(w, buffer, State(true));
          return false;
        }
        k := L.IndexOf(buffer, '\n');
      }
      ok := true;
    }

    method Run(chunks: seq<string>) returns (r: Outcome<Response, ()>)
      requires buffer == "" && State(false) == START
      modifies this
      ensures r == ReplyOf(FeedAll(Liner(w), "", START, chunks).1)
      ensures deltas == FeedAll(Liner(w), "", START, chunks).1.deltas
    {
      ghost var goal := FeedAll(Liner(w), "", START, chunks);
      for i := 0 to |chunks|
        invariant FeedAll(Liner(w), buffer, State(false), chunks[i..]) == goal
      {
        assert chunks[i..][1..] == chunks[i + 1..];
        ghost var (b, t) := Drain(Liner(w), buffer + chunks[i], State(false));
        var ok := PushChunk(chunks[i]);
        if !ok {
          FailureStaysFed(w, b, t, chunks[i + 1..]);
          return Err(());
        }
      }
      var usage := Usage(prompt, completion);
      if toolCalls != [] {
        r := Ok(Response(if |toolCalls| == 1 then Call(toolCalls[0]) else MultiCall(toolCalls), usage, ToolUse));
      } else {
        r := Ok(Response(Text(fullText), usage, TextStop(doneReason)));
      }
    }
  }

  lemma {:induction false} FailureStays(w: Wire, buffer: string, s: Acc)
    requires s.failed
    ensures Drain(Liner(w), buffer, s).1 == s
    decreases |buffer|
  {
    var k := L.IndexOf(buffer, '\n');
    if k < |buffer| {
      FailureStays(w, buffer[k + 1..], s);
    }
  }

  lemma {:induction false} FailureStaysFed(w: Wire, buffer: string, s: Acc, chunks: seq<string>)
    requires s.failed
    ensures FeedAll(Liner(w), buffer, s, chunks).1 == s
    decreases |chunks|
  {
    if chunks != [] {
      var (b, t) := Drain(Liner(w), buffer + chunks[0], s);
      FailureStays(w, buffer + chunks[0], s);
      FailureStaysFed(w, b, t, chunks[1..]);
    }
  }

  // ---- Agreement ---------------------------------------------------------------------------

  function ContentOf(p: Part): string {
    if p.content.Some? then p.content.value else ""
  }

  function CallsIn(p: Part): seq<RawCall> {
    if p.calls.Some? then p.calls.value else []
  }

  /** What `p`, read last, would change in the reply: it adds calls, or text to a reply without calls,
      or it is marked done and brings other counts or, without calls, another reason to stop. */
  predicate Matters(s: Acc, p: Part) {
    || CallsIn(p) != []
    || (s.toolCalls == [] && ContentOf(p) != "")
    || (p.done && (|| OrZero(p.promptCount) != s.prompt || OrZero(p.evalCount) != s.completion
                   || (s.toolCalls == [] && TextStop(p.doneReason) != TextStop(s.doneReason))))
  }

  /** A last line without its line feed is never handled.  That changes the reply exactly when the line
      is not blank and either does not decode, which would have failed the call, or matters. */
  lemma {:induction false} DroppedTailExactlyWhen(w: Wire, s: Acc, tail: string)
    requires !s.failed
    ensures ReplyOf(OnLine(w, s, tail)) != ReplyOf(s)
      <==> Trim(tail) != [] && (w.part(Trim(tail)).None? || Matters(s, w.part(Trim(tail)).value))
  {
    if Trim(tail) != [] && w.part(Trim(tail)).Some? {
      var p := w.part(Trim(tail)).value;
      CallsCount(w, CallsIn(p), |s.toolCalls|);
      LastPartMatters(w, s, p);
    }
  }

  lemma {:induction false} LastPartMatters(w: Wire, s: Acc, p: Part)
    requires !s.failed && |Calls(w, CallsIn(p), |s.toolCalls|)| == |CallsIn(p)|
    ensures ReplyOf(OnPart(w, s, p)) != ReplyOf(s) <==> Matters(s, p)
  {
    var t := OnPart(w, s, p);
    assert s.toolCalls + [] == s.toolCalls && s.fullText + "" == s.fullText;
    assert |t.toolCalls| == |s.toolCalls| + |CallsIn(p)|;
    assert |t.fullText| == |s.fullText| + |ContentOf(p)|;
  }

  /** Everything the parts say, in one piece: texts and calls in order, and the counts and the reason
      of the last part marked done. */
  function OneShot(parts: seq<Part>): ApiResponse {
    if parts == [] then ApiResponse(Some(""), Some([]), None, None, None)
    else WithPart(OneShot(parts[..|parts| - 1]), parts[|parts| - 1])
  }

  function OnParts(w: Wire, s: Acc, parts: seq<Part>): Acc {
    if parts == [] then s else OnPart(w, OnParts(w, s, parts[..|parts| - 1]), parts[|parts| - 1])
  }

  lemma {:induction false} CallsAppend(w: Wire, a: seq<RawCall>, b: seq<RawCall>, n: nat)
    ensures |Calls(w, a, n)| == |a|
    ensures Calls(w, a + b, n) == Calls(w, a, n) + Calls(w, b, n + |a|)
    decreases |a| + |b|
  {
    if b == [] {
      assert a + b == a;
      if a != [] {
        CallsAppend(w, a[..|a| - 1], [], n);
      }
      assert Calls(w, a, n) + [] == Calls(w, a, n);
    } else {
      var front := b[..|b| - 1];
      assert (a + b)[..|a + b| - 1] == a + front;
      CallsAppend(w, a, front, n);
    }
  }

  lemma {:induction false} CallsCount(w: Wire, a: seq<RawCall>, n: nat)
    ensures |Calls(w, a, n)| == |a|
  {
    CallsAppend(w, a, [], n);
  }

  /** The loop's state is what the parts say in one piece. */
  lemma {:induction false} PartsAddUp(w: Wire, parts: seq<Part>)
    ensures AddsUp(w, OnParts(w, START, parts), OneShot(parts))
  {
    if parts != [] {
      var n := |parts| - 1;
      PartsAddUp(w, parts[..n]);
      PartAddsUp(w, OnParts(w, START, parts[..n]), OneShot(parts[..n]), parts[n]);
    }
  }

  /** The state is what the one-piece reply says. */
  ghost predicate AddsUp(w: Wire, s: Acc, r: ApiResponse) {
    && !s.failed
    && r.content == Some(s.fullText) && r.calls.Some? && s.toolCalls == Calls(w, r.calls.value, 0)
    && |s.toolCalls| == |r.calls.value|
    && s.prompt == OrZero(r.promptCount) && s.completion == OrZero(r.evalCount) && s.doneReason == r.doneReason
    && Concat(s.deltas) == s.fullText
  }

  /** One more part of a reply in one piece. */
  function WithPart(r: ApiResponse, p: Part): ApiResponse {
    var content := (if r.content.Some? then r.content.value else "") + ContentOf(p);
    var calls := (if r.calls.Some? then r.calls.value else []) + CallsIn(p);
    if p.done then ApiResponse(Some(content), Some(calls), p.doneReason, p.promptCount, p.evalCount)
    else r.(content := Some(content), calls := Some(calls))
  }

  lemma {:induction false} PartAddsUp(w: Wire, s: Acc, r: ApiResponse, p: Part)
    requires AddsUp(w, s, r)
    ensures AddsUp(w, OnPart(w, s, p), WithPart(r, p))
  {
    ContentAddsUp(s, p);
    CallsAddUp(w, OnContent(s, p.content), r.calls.value, p);
  }

  lemma {:induction false} CallsAddUp(w: Wire, s: Acc, raw: seq<RawCall>, p: Part)
    requires s.toolCalls == Calls(w, raw, 0) && |s.toolCalls| == |raw|
    ensures
      var t := OnCalls(w, s, p.calls);
      t.toolCalls == Calls(w, raw + CallsIn(p), 0) && |t.toolCalls| == |raw + CallsIn(p)|
  {
    CallsAppend(w, raw, CallsIn(p), 0);
    CallsCount(w, CallsIn(p), |s.toolCalls|);
    assert s.toolCalls + [] == s.toolCalls;
  }

  lemma {:induction false} ContentAddsUp(s: Acc, p: Part)
    requires Concat(s.deltas) == s.fullText
    ensures
      var t := OnContent(s, p.content);
      t.fullText == s.fullText + ContentOf(p) && Concat(t.deltas) == t.fullText
  {
    assert s.fullText + "" == s.fullText;
    ConcatSnoc(s.deltas, ContentOf(p));
  }

  lemma {:induction false} ReplyIsOneShot(w: Wire, parts: seq<Part>)
    ensures ReplyOf(OnParts(w, START, parts)) == Ok(ParseResponse(w, OneShot(parts)))
  {
    PartsAddUp(w, parts);
  }

  /** Decoding gives back each of the parts from its text, which is one line without whitespace at its
      ends. */
  ghost predicate Inverse(w: Wire, enc: Part -> string, parts: seq<Part>) {
    forall i :: 0 <= i < |parts| ==> Decodes(w, enc(parts[i]), parts[i])
  }

  ghost predicate Decodes(w: Wire, text: string, p: Part) {
    && '\n' !in text && text != []
    && !IsWhitespace(text[0]) && !IsWhitespace(text[|text| - 1])
    && w.part(text) == Some(p)
  }

  /** One line per part, each ending in `pad` and a line feed. */
  function Print(enc: Part -> string, parts: seq<Part>, pad: string): string {
    if parts == [] then ""
    else Print(enc, parts[..|parts| - 1], pad) + (enc(parts[|parts| - 1]) + pad + "\n")
  }

  lemma {:induction false} TrimPadded(text: string, pad: string)
    requires AllWhitespace(pad) && text != [] && !IsWhitespace(text[0]) && !IsWhitespace(text[|text| - 1])
    ensures Trim(text + pad) == text
  {
    var all := text + pad;
    assert forall j :: |text| <= j < |all| ==> all[j] == pad[j - |text|];
    assert all[|text| - 1] == text[|text| - 1];
    assert TrimEnd(all) == text;
  }

  lemma {:induction false} LinerReads(w: Wire, enc: Part -> string, p: Part, pad: string, s: Acc)
    requires Decodes(w, enc(p), p) && AllWhitespace(pad) && !s.failed
    ensures Liner(w)(s, enc(p) + pad) == OnPart(w, s, p)
  {
    TrimPadded(enc(p), pad);
  }

  lemma {:induction false} NoFeed(a: string, b: string)
    requires '\n' !in a && '\n' !in b
    ensures '\n' !in a + b
  {
  }

  lemma {:induction false} DrainPrinted(w: Wire, enc: Part -> string, parts: seq<Part>, pad: string)
    requires Inverse(w, enc, parts) && AllWhitespace(pad) && '\n' !in pad
    ensures Drain(Liner(w), Print(enc, parts, pad), START) == ("", OnParts(w, START, parts))
  {
    if parts != [] {
      var n := |parts| - 1;
      var p, before := parts[n], OnParts(w, START, parts[..n]);
      DrainPrinted(w, enc, parts[..n], pad);
      PartsAddUp(w, parts[..n]);
      NoFeed(enc(p), pad);
      DrainLast(Liner(w), Print(enc, parts[..n], pad), enc(p) + pad, START, before);
      LinerReads(w, enc, p, pad, before);
    }
  }

  /** Any different parts have such texts: numbers in unary will do. */
  lemma {:induction false} AnyPartsCanBeSent(parts: seq<Part>, value: string -> Option<Json>, newId: nat -> string)
    returns (w: Wire, enc: Part -> string)
    ensures Inverse(w, enc, parts) && w.value == value && w.newId == newId
  {
    var texts: map<Part, string>, read: map<string, Part> := map[], map[];
    var i := 0;
    while i < |parts|
      invariant 0 <= i <= |parts|
      invariant forall j :: 0 <= j < i ==> parts[j] in texts
      invariant forall p :: p in texts ==> texts[p] in read && read[texts[p]] == p
      invariant forall t :: t in read ==> 0 < |t| <= i && forall j :: 0 <= j < |t| ==> t[j] == '1'
    {
      if parts[i] !in texts {
        var text := seq(i + 1, _ => '1');
        assert text !in read;
        texts := texts[parts[i] := text];
        read := read[text := parts[i]];
      }
      i := i + 1;
    }
    w := Wire((t: string) => if t in read then Some(read[t]) else None, value, newId);
    enc := (p: Part) => if p in texts then texts[p] else "";
  }

  /** For any parts and any cuts the streamed reply is what `parse_response` makes of the same reply in
      one piece.  A last line without its line feed, `tail`, is dropped unread. */
  lemma {:induction false} StreamAgreesWithOneShot(w: Wire, enc: Part -> string, parts: seq<Part>, pad: string,
        tail: string, chunks: seq<string>)
    requires Inverse(w, enc, parts) && AllWhitespace(pad) && '\n' !in pad && '\n' !in tail
    requires Concat(chunks) == Print(enc, parts, pad) + tail
    ensures
      var (rest, s) := FeedAll(Liner(w), "", START, chunks);
      && rest == tail
      && ReplyOf(s) == Ok(ParseResponse(w, OneShot(parts)))
      && Concat(s.deltas) == s.fullText
  {
    FeedIsDrain(Liner(w), "", START, chunks);
    assert "" + Concat(chunks) == Concat(chunks);
    DrainPrinted(w, enc, parts, pad);
    DrainTail(Liner(w), Print(enc, parts, pad), tail, START, OnParts(w, START, parts));
    ReplyIsOneShot(w, parts);
    PartsAddUp(w, parts);
  }
}

/** What a streamed reply says, in terms of what was sent (crates/rustykrab-providers/src/anthropic.rs
    and ollama.rs), without going through the one-shot parsers. */
module Replies {
  import opened Options
  import opened Seqs
  import opened Json
  import opened Messages
  import opened Framing
  import opened Strings
  import S = SseStream
  import O = OllamaStream

  // ---- Anthropic: one event ----------------------------------------------------------------

  /** The end of a tool block appends its call, with the JSON value its collected text decodes to. */
  lemma {:induction false} ToolInputArrives(w: S.Wire, s: S.Acc, i: nat, v: Json)
    requires i in s.inputs && i in s.meta && w.value(s.inputs[i]) == Some(v)
    ensures S.OnBlockStop(w, s, i).toolCalls == s.toolCalls + [ToolCall(s.meta[i].0, s.meta[i].1, v)]
  {
  }

  /** Text that is no JSON becomes an empty object, and the call is made all the same. */
  lemma {:induction false} BrokenInputIsEmpty(w: S.Wire, s: S.Acc, i: nat)
    requires i in s.inputs && i in s.meta && w.value(s.inputs[i]) == None
    ensures S.OnBlockStop(w, s, i).toolCalls == s.toolCalls + [ToolCall(s.meta[i].0, s.meta[i].1, Object([]))]
  {
  }

  // ---- Anthropic: the whole reply ----------------------------------------------------------

  /** The tool blocks in order. */
  function SentCalls(blocks: seq<S.SentBlock>): seq<ToolCall> {
    if blocks == [] then []
    else
      (if blocks[0].SentTool? then [ToolCall(blocks[0].id, blocks[0].name, blocks[0].input)] else [])
      + SentCalls(blocks[1..])
  }

  /** The pieces of the text blocks in order. */
  function SentText(blocks: seq<S.SentBlock>): string {
    if blocks == [] then ""
    else (if blocks[0].SentText? then Concat(blocks[0].pieces) else "") + SentText(blocks[1..])
  }

  lemma {:induction false} BlocksSay(blocks: seq<S.SentBlock>)
    ensures S.CallsOf(S.AssembledAll(blocks)) == SentCalls(blocks)
    ensures Concat(S.TextsOf(S.AssembledAll(blocks))) == SentText(blocks)
  {
    if blocks != [] {
      var first, rest := S.Assembled(blocks[0]), S.AssembledAll(blocks[1..]);
      assert S.AssembledAll(blocks) == [first] + rest;
      assert S.AssembledAll(blocks)[1..] == rest;
      BlocksSay(blocks[1..]);
      assert [] + S.TextsOf(rest) == S.TextsOf(rest);
      if blocks[0].SentText? {
        assert ([Concat(blocks[0].pieces)] + S.TextsOf(rest))[1..] == S.TextsOf(rest);
      }
    }
  }

  /** `calls` are the content of `c`: one by itself, several together. */
  predicate Carries(c: Content, calls: seq<ToolCall>) {
    && c.ToolCalls() == calls
    && (|calls| == 1 ==> c.Call?) && (|calls| > 1 ==> c.MultiCall?)
  }

  predicate SaysSent(reply: S.Response, sent: S.Sent) {
    var calls, text := SentCalls(sent.blocks), SentText(sent.blocks);
    && Carries(reply.content, calls)
    && (calls == [] ==> reply.content == Text(text) && reply.text == None)
    && (calls != [] ==> reply.text == if text == "" then None else Some(text))
    && reply.usage.prompt == sent.start.input && reply.usage.completion == sent.output
    && (sent.start.cacheRead.Some? ==> reply.usage.cacheRead == sent.start.cacheRead.value)
    && (sent.start.cacheCreation.Some? ==> reply.usage.cacheCreation == sent.start.cacheCreation.value)
    && (reply.stop == ToolUse <==> sent.stopReason == Some("tool_use"))
    && (reply.stop == MaxTokens <==> sent.stopReason == Some("max_tokens"))
  }

  lemma {:induction false} OneShotSays(sent: S.Sent)
    ensures SaysSent(S.ParseResponse(S.OneShot(sent)), sent)
  {
    BlocksSay(sent.blocks);
    assert "tool_use" != "max_tokens" by { assert "tool_use"[0] != "max_tokens"[0]; }
  }

  /** The text, the calls with their inputs, the counts and the stop reason of a streamed reply are those
      that were sent, however the pieces and the chunks were cut. */
  lemma {:induction false} StreamSaysWhatWasSent(w: S.Wire, enc: S.Encoder, sent: S.Sent, pad: string,
        chunks: seq<string>)
    requires S.Inverse(w, enc) && S.AllCarry(w, sent.blocks)
    requires S.Pad(pad) && Concat(chunks) == S.Print(S.Events(enc, sent), pad)
    ensures SaysSent(S.ReplyOf(FeedAll(S.Liner(w), "", S.START, chunks).1), sent)
  {
    S.StreamAgreesWithOneShot(w, enc, sent, pad, chunks);
    OneShotSays(sent);
  }

  // ---- Ollama ------------------------------------------------------------------------------

  function AllText(parts: seq<O.Part>): string {
    if parts == [] then "" else AllText(parts[..|parts| - 1]) + O.ContentOf(parts[|parts| - 1])
  }

  function AllRaw(parts: seq<O.Part>): seq<O.RawCall> {
    if parts == [] then [] else AllRaw(parts[..|parts| - 1]) + O.CallsIn(parts[|parts| - 1])
  }

  /** The last part marked done is `parts[i]`, if there is one. */
  ghost predicate LastDone(parts: seq<O.Part>, i: Option<nat>) {
    match i
    case Some(n) => n < |parts| && parts[n].done && forall k :: n < k < |parts| ==> !parts[k].done
    case None => forall k :: 0 <= k < |parts| ==> !parts[k].done
  }

  lemma {:induction false} PartsSay(parts: seq<O.Part>, i: Option<nat>)
    requires LastDone(parts, i)
    ensures
      var r := O.OneShot(parts);
      && r.content == Some(AllText(parts)) && r.calls == Some(AllRaw(parts))
      && (i.Some? ==> r.doneReason == parts[i.value].doneReason && r.promptCount == parts[i.value].promptCount
                      && r.evalCount == parts[i.value].evalCount)
      && (i.None? ==> r.doneReason == None && r.promptCount == None && r.evalCount == None)
  {
    if parts != [] {
      var n := |parts| - 1;
      var front := parts[..n];
      if parts[n].done {
        assert i == Some(n);
        var j := LastDoneOf(front);
        PartsSay(front, j);
      } else {
        PartsSay(front, i);
      }
    }
  }

  lemma {:induction false} LastDoneOf(parts: seq<O.Part>) returns (i: Option<nat>)
    ensures LastDone(parts, i)
  {
    i := None;
    for n := 0 to |parts|
      invariant LastDone(parts[..n], i)
    {
      if parts[n].done {
        i := Some(n);
      }
    }
    assert parts[..|parts|] == parts;
  }

  /** An object that came as text is meant as that object; everything else as it stands. */
  predicate Meant(w: O.Wire, raw: Json, arguments: Json) {
    if raw.String? && w.value(raw.s).Some? && w.value(raw.s).value.Object?
    then w.value(raw.s) == Some(arguments)
    else arguments == raw
  }

  lemma {:induction false} CallsSay(w: O.Wire, raw: seq<O.RawCall>, n: nat)
    ensures
      var calls := O.Calls(w, raw, n);
      && |calls| == |raw|
      && forall k :: 0 <= k < |raw| ==>
           && calls[k].id == w.newId(n + k) && calls[k].name == raw[k].name
           && Meant(w, raw[k].arguments, calls[k].arguments)
    decreases |raw|
  {
    if raw != [] {
      CallsSay(w, raw[..|raw| - 1], n);
    }
  }

  predicate SaysParts(w: O.Wire, reply: O.Response, raw: seq<O.RawCall>, text: string, done: O.Part) {
    var calls := reply.content.ToolCalls();
    && |calls| == |raw| && Carries(reply.content, calls)
    && (forall k :: 0 <= k < |raw| ==>
          calls[k].id == w.newId(k) && calls[k].name == raw[k].name && Meant(w, raw[k].arguments, calls[k].arguments))
    && (raw == [] ==> reply.content == Text(text))
    && (raw == [] ==> (reply.stop == MaxTokens <==> done.doneReason == Some("length")))
    && (raw == [] ==> reply.stop != ToolUse) && (raw != [] ==> reply.stop == ToolUse)
    && (done.promptCount.Some? ==> reply.usage.prompt == done.promptCount.value)
    && (done.evalCount.Some? ==> reply.usage.completion == done.evalCount.value)
  }

  lemma {:induction false} ParsedSays(w: O.Wire, r: O.ApiResponse, raw: seq<O.RawCall>, text: string, done: O.Part)
    requires r.content == Some(text) && r.calls == Some(raw)
    requires r.doneReason == done.doneReason && r.promptCount == done.promptCount && r.evalCount == done.evalCount
    ensures SaysParts(w, O.ParseResponse(w, r), raw, text, done)
  {
    CallsSay(w, raw, 0);
  }

  /** For parts of which `done` is the last marked done: the text and the calls of all parts in order,
      and the counts and the stop reason of that part. */
  lemma {:induction false} PartsAreTheReply(w: O.Wire, enc: O.Part -> string, parts: seq<O.Part>, pad: string,
        tail: string, chunks: seq<string>, done: nat)
    requires O.Inverse(w, enc, parts) && AllWhitespace(pad) && '\n' !in pad && '\n' !in tail
    requires Concat(chunks) == O.Print(enc, parts, pad) + tail && LastDone(parts, Some(done))
    ensures
      var r := O.ReplyOf(FeedAll(O.Liner(w), "", O.START, chunks).1);
      r.Ok? && SaysParts(w, r.value, AllRaw(parts), AllText(parts), parts[done])
  {
    O.StreamAgreesWithOneShot(w, enc, parts, pad, tail, chunks);
    PartsSay(parts, Some(done));
    ParsedSays(w, O.OneShot(parts), AllRaw(parts), AllText(parts), parts[done]);
  }
}

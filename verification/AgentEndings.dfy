/** How a run of the agent loop ends, and when it reflects (crates/rustykrab-agent/src/runner.rs), in
    terms of the model's replies, the session's expiry and the tools' results alone. */
module AgentEndings {
  import opened Options
  import opened Json
  import opened Seqs
  import opened Messages
  import opened ToolExecution
  import opened AgentRunner
  import opened AgentEvents
  import L = Lines

  // ---- The last provider call --------------------------------------------------------------

  /** A reply that ends the turn: no tool calls, and it was not cut off. */
  predicate Finished(r: Reply) {
    !r.message.content.HasToolCalls() && r.stop == EndTurn
  }

  /** Iteration `i` is followed by another one. */
  predicate GoesOn(w: World, i: nat) {
    !w.expired(i + 1) && w.replies(i).Ok? && !Finished(w.replies(i).value)
  }

  ghost predicate Reaches(w: World, i: nat, n: nat) {
    forall j :: i <= j < n ==> GoesOn(w, j)
  }

  /** What ends the loop in iteration `n`, or at the cap, and how many provider calls were made from
      iteration `i` on. */
  ghost predicate EndsAt(w: World, cfg: Config, i: nat, n: nat, rest: Rest)
    requires i <= n <= cfg.maxIterations
  {
    if n == cfg.maxIterations then
      && rest.calls == n - i + 1
      && match w.replies(n)
         case Ok(reply) => rest.ending == Ok(()) && rest.closing == [reply.message]
         case Err(e) => rest.ending == Err(e) && rest.closing == []
    else if w.expired(n + 1) then
      rest.calls == n - i && rest.closing == [] && rest.ending == Err(Error(Auth, "session expired during execution"))
    else
      && rest.calls == n - i + 1 && rest.closing == []
      && match w.replies(n)
         case Ok(reply) => Finished(reply) && rest.ending == Ok(())
         case Err(e) => rest.ending == Err(e)
  }

  lemma {:induction false} TurnGoesOn(w: World, cfg: Config, i: nat, before: seq<Message>, errors: nat)
    ensures
      var t := TurnOf(w, cfg, i, before, errors);
      && (t.next.Again? <==> GoesOn(w, i)) && (t.next.Again? ==> t.calls == 1)
      && (t.next.Stop? ==>
            if w.expired(i + 1)
            then t.calls == 0 && t.next.ending == Err(Error(Auth, "session expired during execution"))
            else t.calls == 1 && t.next.ending == if w.replies(i).Ok? then Ok(()) else Err(w.replies(i).error))
  {
  }

  lemma {:induction false} LoopEndsAt(w: World, cfg: Config, i: nat, before: seq<Message>, errors: nat) returns (n: nat)
    requires i <= cfg.maxIterations
    ensures i <= n <= cfg.maxIterations && Reaches(w, i, n)
    ensures EndsAt(w, cfg, i, n, Loop(Turns(w, cfg), Final(w, cfg), cfg.maxIterations, i, before, errors))
    decreases cfg.maxIterations - i
  {
    n := i;
    if i < cfg.maxIterations {
      var t := Turns(w, cfg)(i, before, errors);
      TurnGoesOn(w, cfg, i, before, errors);
      if t.next.Again? {
        n := LoopEndsAt(w, cfg, i + 1, before + t.added, t.next.errors);
        EndsLater(w, cfg, i, n, t, Loop(Turns(w, cfg), Final(w, cfg), cfg.maxIterations, i + 1, before + t.added, t.next.errors));
      }
    }
  }

  lemma {:induction false} EndsLater(w: World, cfg: Config, i: nat, n: nat, t: Turn, rest: Rest)
    requires i + 1 <= n <= cfg.maxIterations && GoesOn(w, i) && Reaches(w, i + 1, n) && t.calls == 1
    requires EndsAt(w, cfg, i + 1, n, rest)
    ensures Reaches(w, i, n) && EndsAt(w, cfg, i, n, After(t, rest))
  {
  }

  /** Every run: the loop goes on while the session lasts, the provider answers and the reply is not a
      finished one; the first iteration where that fails, or the cap, decides the ending and is the last
      provider call. */
  lemma {:induction false} RunEndsAt(w: World, cfg: Config, before: seq<Message>) returns (n: nat)
    requires !w.expired(0)
    ensures n <= cfg.maxIterations && Reaches(w, 0, n) && EndsAt(w, cfg, 0, n, Whole(w, cfg, before))
  {
    n := LoopEndsAt(w, cfg, 0, before, 0);
  }

  /** Iteration `n` is the first that does not go on, and its reply is a finished one. */
  ghost predicate FinishesAt(w: World, cfg: Config, n: nat) {
    && n < cfg.maxIterations && !w.expired(0) && Reaches(w, 0, n)
    && !w.expired(n + 1) && w.replies(n).Ok? && Finished(w.replies(n).value)
  }

  lemma {:induction false} SameEnd(w: World, cfg: Config, n: nat, m: nat)
    requires n <= cfg.maxIterations && Reaches(w, 0, n) && (n < cfg.maxIterations ==> !GoesOn(w, n))
    requires FinishesAt(w, cfg, m)
    ensures m == n
  {
    assert n < m ==> GoesOn(w, n);
    assert m < n ==> GoesOn(w, m);
  }

  /** A run succeeds before the cap exactly when some reply before it, with neither expiry nor provider
      error until then, has no tool calls and stops with `EndTurn`; the first such reply is the last call
      made. */
  lemma {:induction false} SucceedsBeforeCapExactlyWhen(w: World, cfg: Config, before: seq<Message>)
    ensures
      var r := Whole(w, cfg, before);
      r.ending.Ok? && r.closing == [] <==> exists n: nat :: FinishesAt(w, cfg, n)
    ensures forall n: nat :: FinishesAt(w, cfg, n) ==> Whole(w, cfg, before).calls == n + 1
  {
    if !w.expired(0) {
      var n := RunEndsAt(w, cfg, before);
      forall m: nat | FinishesAt(w, cfg, m) ensures m == n {
        SameEnd(w, cfg, n, m);
      }
      if Whole(w, cfg, before).ending.Ok? && Whole(w, cfg, before).closing == [] {
        assert FinishesAt(w, cfg, n);
      }
    }
  }

  /** A run whose first reply is a finished one makes one call, and neither asks again nor warns. */
  lemma {:induction false} OneReplyIsEnough(w: World, cfg: Config, before: seq<Message>)
    requires cfg.maxIterations > 0 && !w.expired(0) && !w.expired(1) && w.replies(0).Ok? && Finished(w.replies(0).value)
    ensures
      var r := Whole(w, cfg, before);
      && r.ending == Ok(()) && r.calls == 1 && r.body == [w.replies(0).value.message] && r.closing == []
  {
    var m := w.replies(0).value.message;
    assert Warnings(cfg, 0) == [];
    assert [] + [m] + [] == [m];
  }

  // ---- Reflection --------------------------------------------------------------------------

  /** How many of the last rounds of tool calls had trouble, one after the other; replies without calls
      do not count. */
  function InARow(logs: seq<Log>): nat {
    if logs == [] then 0
    else
      var l := logs[|logs| - 1];
      if !l.UsesTools() then InARow(logs[..|logs| - 1])
      else if Troubling(l) then InARow(logs[..|logs| - 1]) + 1
      else 0
  }

  /** `Trouble` over a stretch of a run. */
  function TroubleAfter(logs: seq<Log>): nat {
    if logs == [] then 0 else Trouble(logs[|logs| - 1], TroubleAfter(logs[..|logs| - 1]))
  }

  lemma {:induction false} CountedAt(cfg: Config, history: seq<Message>, done: seq<Log>, logs: seq<Log>, k: nat)
    requires Counted(cfg, history, TroubleAfter(done), logs) && k < |logs| && logs[k].UsesTools()
    ensures (logs[k].after != [])
      <==> Troubling(logs[k]) && TroubleAfter(done + logs[..k]) + 1 >= cfg.maxConsecutiveErrors
    decreases |logs|
  {
    if k == 0 {
      assert done + logs[..0] == done;
    } else {
      var more := done + [logs[0]];
      CountedRest(cfg, history, done, logs);
      CountedAt(cfg, history + logs[0].Spoken(), more, logs[1..], k - 1);
      assert logs[..k] == [logs[0]] + logs[1..][..k - 1];
      Assoc(done, [logs[0]], logs[1..][..k - 1]);
    }
  }

  lemma {:induction false} CountedRest(cfg: Config, history: seq<Message>, done: seq<Log>, logs: seq<Log>)
    requires logs != [] && Counted(cfg, history, TroubleAfter(done), logs)
    ensures Counted(cfg, history + logs[0].Spoken(), TroubleAfter(done + [logs[0]]), logs[1..])
  {
    var more := done + [logs[0]];
    assert more[..|more| - 1] == done;
  }

  lemma {:induction false} RemainderIs(n: nat, q: nat, r: nat, max: nat)
    requires r < max && n == max * q + r
    ensures n % max == r
  {
    var d := q - n / max;
    assert max * d == n % max - r;
    if d >= 1 {
      AtLeast(max, d);
    } else if d <= -1 {
      AtLeast(max, 0 - d);
    }
  }

  lemma {:induction false} AtLeast(max: nat, d: int)
    requires d >= 1
    ensures max * d >= max
  {
  }

  lemma {:induction false} NextMultiple(n: nat, max: nat)
    requires max > 1
    ensures (n + 1) % max == if n % max + 1 == max then 0 else n % max + 1
  {
    var q, r := n / max, n % max;
    if r + 1 == max {
      assert n + 1 == max * (q + 1);
      RemainderIs(n + 1, q + 1, 0, max);
    } else {
      RemainderIs(n + 1, q, r + 1, max);
    }
  }

  /** The count is the number of troubled rounds in a row, modulo the configured number. */
  lemma {:induction false} CountIsRow(cfg: Config, history: seq<Message>, logs: seq<Log>, k: nat)
    requires cfg.maxConsecutiveErrors > 1 && Counted(cfg, history, 0, logs) && k <= |logs|
    ensures TroubleAfter(logs[..k]) == InARow(logs[..k]) % cfg.maxConsecutiveErrors
  {
    var max := cfg.maxConsecutiveErrors;
    if k == 0 {
      RemainderIs(0, 0, 0, max);
    } else {
      var l, front := logs[k - 1], logs[..k - 1];
      CountIsRow(cfg, history, logs, k - 1);
      OneMore(front, l);
      assert logs[..k] == front + [l];
      if l.UsesTools() {
        CountedAt(cfg, history, [], logs, k - 1);
        assert [] + front == front;
        NextCount(max, l, TroubleAfter(front), InARow(front));
      }
    }
  }

  lemma {:induction false} OneMore(front: seq<Log>, l: Log)
    ensures TroubleAfter(front + [l]) == Trouble(l, TroubleAfter(front))
    ensures InARow(front + [l])
      == if !l.UsesTools() then InARow(front) else if Troubling(l) then InARow(front) + 1 else 0
  {
    assert (front + [l])[..|front|] == front;
  }

  lemma {:induction false} NextCount(max: nat, l: Log, count: nat, row: nat)
    requires max > 1 && count == row % max && l.UsesTools()
    requires (l.after != []) <==> Troubling(l) && count + 1 >= max
    ensures Trouble(l, count) == (if Troubling(l) then row + 1 else 0) % max
  {
    NextMultiple(row, max);
    RemainderIs(0, 0, 0, max);
  }

  /** In every run a round of tool calls is followed by a reflection exactly when it had trouble and is
      the n-th, 2n-th, 3n-th and so on of troubled rounds in a row, n being the configured number; with
      n at most 1, whenever it had trouble. */
  lemma {:induction false} ReflectsExactlyWhen(cfg: Config, history: seq<Message>, logs: seq<Log>, k: nat)
    requires Counted(cfg, history, 0, logs) && k < |logs| && logs[k].UsesTools()
    ensures
      var max := cfg.maxConsecutiveErrors;
      (logs[k].after != [])
      <==> Troubling(logs[k]) && (max <= 1 || InARow(logs[..k + 1]) % max == 0)
  {
    CountedAt(cfg, history, [], logs, k);
    assert [] + logs[..k] == logs[..k];
    if cfg.maxConsecutiveErrors > 1 {
      CountIsRow(cfg, history, logs, k);
      NextMultiple(InARow(logs[..k]), cfg.maxConsecutiveErrors);
      assert logs[..k + 1][..k] == logs[..k] && logs[..k + 1][k] == logs[k];
    }
  }

  // ---- What a reflection quotes ------------------------------------------------------------

  /** The error texts among the messages, in order. */
  function ErrorTexts(messages: seq<Message>): seq<string> {
    if messages == [] then []
    else ErrorTexts(messages[..|messages| - 1]) + QuotedError(messages[|messages| - 1])
  }

  /** The text under "error" of a tool result that failed. */
  function QuotedError(m: Message): seq<string> {
    match m.content
    case Result(ToolResult(_, output, true)) =>
      (match Get(output, "error")
       case Some(String(text)) => [text]
       case _ => [])
    case _ => []
  }

  function Reverse<T>(xs: seq<T>): seq<T> {
    if xs == [] then [] else [xs[|xs| - 1]] + Reverse(xs[..|xs| - 1])
  }

  function First<T>(xs: seq<T>, n: nat): seq<T> {
    if |xs| <= n then xs else xs[..n]
  }

  function Latest<T>(xs: seq<T>, n: nat): seq<T> {
    if |xs| <= n then xs else xs[|xs| - n..]
  }

  lemma {:induction false} ReverseSnoc<T>(xs: seq<T>, x: T)
    ensures Reverse(xs + [x]) == [x] + Reverse(xs)
  {
    assert (xs + [x])[..|xs|] == xs;
  }

  lemma {:induction false} LatestSnoc(messages: seq<Message>, n: nat, window: nat)
    requires 0 < n <= |messages| && window > 0
    ensures Latest(messages[..n], window) == Latest(messages[..n - 1], window - 1) + [messages[n - 1]]
  {
  }

  lemma {:induction false} QuoteIs(m: Message)
    ensures QuotedError(m) == match ErrorText(m) { case Some(text) => [text] case None => [] }
  {
  }

  lemma {:induction false} FirstCons<T>(x: T, xs: seq<T>, n: nat)
    requires n > 0
    ensures First([x] + xs, n) == [x] + First(xs, n - 1)
  {
  }

  /** The errors of `messages`, latest first, until there are three with the `got` found before. */
  function Picked(messages: seq<Message>, got: nat): seq<string>
    decreases |messages|
  {
    if messages == [] || got >= 3 then []
    else
      var n := |messages| - 1;
      match ErrorText(messages[n])
      case Some(text) => [text] + Picked(messages[..n], got + 1)
      case None => Picked(messages[..n], got)
  }

  lemma {:induction false} RecentIsPicked(messages: seq<Message>, n: nat, window: nat, got: nat, latest: seq<Message>)
    requires n <= |messages| && latest == Latest(messages[..n], window)
    ensures RecentErrors(messages, n, window, got) == Picked(latest, got)
    decreases n
  {
    if n > 0 && window > 0 && got < 3 {
      var m, front := messages[n - 1], Latest(messages[..n - 1], window - 1);
      LatestSnoc(messages, n, window);
      assert latest[|latest| - 1] == m && latest[..|latest| - 1] == front;
      RecentIsPicked(messages, n - 1, window - 1, if ErrorText(m).Some? then got + 1 else got, front);
    }
  }

  lemma {:induction false} PickedAreLatest(messages: seq<Message>, got: nat)
    requires got <= 3
    ensures Picked(messages, got) == First(Reverse(ErrorTexts(messages)), 3 - got)
    decreases |messages|
  {
    if messages != [] && got < 3 {
      var n := |messages| - 1;
      var m, front := messages[n], messages[..n];
      QuoteIs(m);
      if ErrorText(m).Some? {
        var text := ErrorText(m).value;
        PickedAreLatest(front, got + 1);
        ReverseSnoc(ErrorTexts(front), text);
        FirstCons(text, Reverse(ErrorTexts(front)), 3 - got);
      } else {
        PickedAreLatest(front, got);
        assert ErrorTexts(front) + [] == ErrorTexts(front);
      }
    }
  }

  /** It quotes the latest errors of the last ten messages, latest first, at most three. */
  lemma {:induction false} ReflectionQuotes(messages: seq<Message>)
    ensures RecentErrors(messages, |messages|, 10, 0) == First(Reverse(ErrorTexts(Latest(messages, 10))), 3)
  {
    assert messages[..|messages|] == messages;
    RecentIsPicked(messages, |messages|, 10, 0, Latest(messages, 10));
    PickedAreLatest(Latest(messages, 10), 0);
  }

  /** An error reaches the history on one line and cut to 200 characters. */
  lemma {:induction false} ErrorsAreShort(text: string)
    ensures
      var s := SanitizeError(text);
      |s| <= 200 && '\n' !in s && s <= text
  {
    if text != [] {
      FirstLine(text);
    }
  }

  lemma {:induction false} FirstLine(text: string)
    requires text != []
    ensures L.LinesOf(text, '\n', '\r') != []
    ensures L.LinesOf(text, '\n', '\r')[0] <= text && '\n' !in L.LinesOf(text, '\n', '\r')[0]
  {
    var k := L.IndexOf(text, '\n');
    if k == |text| {
      assert L.LinesOf(text, '\n', '\r') == [text];
    } else {
      L.LinesUnfold(text, '\n', '\r', k);
      assert L.StripLast(text[..k], '\r') <= text[..k];
    }
  }
}

/** Line framing of a text that arrives in chunks, shared by both stream parsers: bytes are buffered,
    and every complete line is handled as soon as its line feed is there. */
module Framing {
  import opened Seqs
  import L = Lines

  /** Handle every complete line of `buffer`; what follows the last line feed stays buffered. */
  function Drain<S>(step: (S, string) -> S, buffer: string, s: S): (string, S)
    decreases |buffer|
  {
    var k := L.IndexOf(buffer, '\n');
    if k == |buffer| then (buffer, s) else Drain(step, buffer[k + 1..], step(s, buffer[..k]))
  }

  function FeedAll<S>(step: (S, string) -> S, buffer: string, s: S, chunks: seq<string>): (string, S)
    decreases |chunks|
  {
    if chunks == [] then (buffer, s)
    else var (b, t) := Drain(step, buffer + chunks[0], s); FeedAll(step, b, t, chunks[1..])
  }

  function Concat(parts: seq<string>): string {
    if parts == [] then "" else parts[0] + Concat(parts[1..])
  }

  lemma {:induction false} NewlineEnds(line: string, rest: string)
    requires '\n' !in line
    ensures L.IndexOf(line + "\n" + rest, '\n') == |line|
  {
    var all := line + "\n" + rest;
    assert all[|line|] == '\n';
    assert forall i :: 0 <= i < |line| ==> all[i] == line[i];
  }

  /** One line at the front of the buffer. */
  lemma {:induction false} DrainOne<S>(step: (S, string) -> S, line: string, rest: string, s: S)
    requires '\n' !in line
    ensures Drain(step, line + "\n" + rest, s) == Drain(step, rest, step(s, line))
  {
    var all := line + "\n" + rest;
    NewlineEnds(line, rest);
    assert all[..|line|] == line && all[|line| + 1..] == rest;
  }

  lemma {:induction false} DrainMore<S>(step: (S, string) -> S, a: string, b: string, s: S)
    ensures
      var (rest, t) := Drain(step, a, s);
      Drain(step, a + b, s) == Drain(step, rest + b, t)
    decreases |a|
  {
    var k := L.IndexOf(a, '\n');
    if k < |a| {
      var line, tail := a[..k], a[k + 1..];
      assert a + b == line + "\n" + (tail + b);
      DrainOne(step, line, tail + b, s);
      DrainMore(step, tail, b, step(s, line));
    }
  }

  /** What every step keeps, draining keeps. */
  lemma {:induction false} DrainKeeps<S(!new)>(step: (S, string) -> S, p: S -> bool, buffer: string, s: S)
    requires p(s) && forall t, line :: p(t) ==> p(step(t, line))
    ensures p(Drain(step, buffer, s).1)
    decreases |buffer|
  {
    var k := L.IndexOf(buffer, '\n');
    if k < |buffer| {
      DrainKeeps(step, p, buffer[k + 1..], step(s, buffer[..k]));
    }
  }

  lemma {:induction false} NoLine(tail: string)
    requires '\n' !in tail
    ensures L.IndexOf(tail, '\n') == |tail|
  {
  }

  /** One more line behind a text of whole lines. */
  lemma {:induction false} DrainLast<S>(step: (S, string) -> S, front: string, line: string, s: S, t: S)
    requires Drain(step, front, s) == ("", t) && '\n' !in line
    ensures Drain(step, front + (line + "\n"), s) == ("", step(t, line))
  {
    var last := line + "\n";
    DrainMore(step, front, last, s);
    assert "" + last == last && last + "" == last;
    DrainOne(step, line, "", t);
  }

  /** What follows the last line feed is left. */
  lemma {:induction false} DrainTail<S>(step: (S, string) -> S, front: string, tail: string, s: S, t: S)
    requires Drain(step, front, s) == ("", t) && '\n' !in tail
    ensures Drain(step, front + tail, s) == (tail, t)
  {
    DrainMore(step, front, tail, s);
    assert "" + tail == tail;
    NoLine(tail);
  }

  lemma {:induction false} DrainLeavesNoLine<S>(step: (S, string) -> S, buffer: string, s: S)
    ensures var rest := Drain(step, buffer, s).0; L.IndexOf(rest, '\n') == |rest|
    decreases |buffer|
  {
    var k := L.IndexOf(buffer, '\n');
    if k < |buffer| {
      DrainLeavesNoLine(step, buffer[k + 1..], step(s, buffer[..k]));
    }
  }

  /** Feeding chunks is draining their concatenation. */
  lemma {:induction false} FeedIsDrain<S>(step: (S, string) -> S, buffer: string, s: S, chunks: seq<string>)
    requires L.IndexOf(buffer, '\n') == |buffer|
    ensures FeedAll(step, buffer, s, chunks) == Drain(step, buffer + Concat(chunks), s)
    decreases |chunks|
  {
    if chunks == [] {
      assert buffer + "" == buffer;
    } else {
      var (b, t) := Drain(step, buffer + chunks[0], s);
      DrainLeavesNoLine(step, buffer + chunks[0], s);
      FeedIsDrain(step, b, t, chunks[1..]);
      DrainMore(step, buffer + chunks[0], Concat(chunks[1..]), s);
      Assoc(buffer, chunks[0], Concat(chunks[1..]));
    }
  }

  /** However the network cuts the same stream: the same lines are handled, the same rest is left. */
  lemma {:induction false} CutsDoNotMatter<S>(step: (S, string) -> S, s: S, chunks: seq<string>, others: seq<string>)
    requires Concat(chunks) == Concat(others)
    ensures FeedAll(step, "", s, chunks) == FeedAll(step, "", s, others)
  {
    FeedIsDrain(step, "", s, chunks);
    FeedIsDrain(step, "", s, others);
  }

  lemma {:induction false} ConcatSnoc(parts: seq<string>, last: string)
    ensures Concat(parts + [last]) == Concat(parts) + last
  {
    if parts == [] {
      assert [last][1..] == [];
    } else {
      assert (parts + [last])[1..] == parts[1..] + [last];
      ConcatSnoc(parts[1..], last);
    }
  }

  lemma {:induction false} ConcatAppend(a: seq<string>, b: seq<string>)
    ensures Concat(a + b) == Concat(a) + Concat(b)
  {
    if a == [] {
      assert a + b == b;
    } else {
      assert (a + b)[1..] == a[1..] + b;
      ConcatAppend(a[1..], b);
    }
  }
}

/** Text chunking for the memory index (crates/rustykrab-memory/src/chunking.rs). */
module Chunking {
  import opened Search
  import opened Utf8
  import L = Lines

  const LF: Byte := 0x0A
  const CR: Byte := 0x0D
  const SPACE: Byte := 0x20
  const COLON: Byte := 0x3A
  const DOT_SPACE: seq<Byte> := [0x2E, 0x20]
  const BANG_SPACE: seq<Byte> := [0x21, 0x20]
  const QUESTION_SPACE: seq<Byte> := [0x3F, 0x20]

  /** `(count as f64 / 3.5).ceil()`. */
  function EstimateTokens(text: seq<Byte>): (n: nat)
    ensures 7 * (n - 1) < 2 * CharCount(text) <= 7 * n
  {
    (2 * CharCount(text) + 6) / 7
  }

  /** `(tokens as f64 * 3.5) as usize`. */
  function TokensToChars(tokens: nat): (n: nat)
    ensures 2 * n <= 7 * tokens < 2 * n + 2
  {
    7 * tokens / 2
  }

  function Clamp(x: real, lo: real, hi: real): real {
    if x < lo then lo else if hi < x then hi else x
  }

  /** `n as f64 * share`, as repeated addition. */
  function Scaled(n: nat, share: real): (r: real)
    ensures 0.0 <= share <= 0.5 ==> 0.0 <= r && 2.0 * r <= n as real
  {
    if n == 0 then 0.0 else share + Scaled(n - 1, share)
  }

  function OverlapChars(maxChars: nat, ratio: real): (n: nat)
    ensures 2 * n <= maxChars
  {
    Scaled(maxChars, Clamp(ratio, 0.0, 0.5)).Floor
  }

  lemma {:induction false} ScaledIsProduct(n: nat, share: real)
    ensures Scaled(n, share) == n as real * share
  {
    if n > 0 {
      ScaledIsProduct(n - 1, share);
      assert n as real == (n - 1) as real + 1.0;
    }
  }

  /** The overlap is the share of the budget, rounded down, the ratio being kept between 0 and 0.5. */
  lemma {:induction false} OverlapIsShare(maxChars: nat, ratio: real)
    ensures OverlapChars(maxChars, ratio) == (maxChars as real * Clamp(ratio, 0.0, 0.5)).Floor
  {
    ScaledIsProduct(maxChars, Clamp(ratio, 0.0, 0.5));
  }

  // ---- Byte offsets --------------------------------------------------------------------------

  function Snap(s: seq<Byte>, offset: nat): (pos: nat)
    ensures pos <= |s| && IsBoundary(s, pos)
    ensures offset <= |s| ==> offset <= pos
    ensures offset > |s| ==> pos == |s|
    ensures forall i | offset <= i < pos :: i < |s| && !IsBoundary(s, i)
    decreases |s| - offset
  {
    if offset >= |s| then |s|
    else if IsBoundary(s, offset) then offset
    else Snap(s, offset + 1)
  }

  method SnapToCharBoundary(s: seq<Byte>, offset: nat) returns (pos: nat)
    ensures pos == Snap(s, offset)
  {
    pos := if offset < |s| then offset else |s|;
    while pos < |s| && !IsBoundary(s, pos)
      invariant pos <= |s| && Snap(s, pos) == Snap(s, offset)
    {
      pos := pos + 1;
    }
  }

  /** Sentence ends, then line feeds, then spaces. */
  const SEPARATORS: seq<seq<Byte>> := [DOT_SPACE, BANG_SPACE, QUESTION_SPACE, [LF], [SPACE]]

  predicate EndsInAscii(sep: seq<Byte>) {
    sep != [] && sep[|sep| - 1] < 0x80
  }

  predicate AllEndInAscii(seps: seq<seq<Byte>>) {
    forall i | 0 <= i < |seps| :: EndsInAscii(seps[i])
  }

  /** The end of the last occurrence of the first separator that occurs, -1 when none does. */
  function BreakIn(region: seq<Byte>, seps: seq<seq<Byte>>): (k: int)
    requires AllEndInAscii(seps)
    ensures k == -1 || (0 < k <= |region| && region[k - 1] < 0x80)
  {
    if seps == [] then -1
    else
      assert EndsInAscii(seps[0]);
      var pos := RFind(region, seps[0]);
      if pos >= 0 then
        assert region[pos..pos + |seps[0]|][|seps[0]| - 1] == region[pos + |seps[0]| - 1];
        pos + |seps[0]|
      else BreakIn(region, seps[1..])
  }

  function FindBreakPoint(content: seq<Byte>, start: nat, targetEnd: nat): (k: nat)
    requires start <= targetEnd <= |content|
  {
    var searchStart := Snap(content, start + (targetEnd - start) * 3 / 4);
    var end := Snap(content, targetEnd);
    if searchStart >= end then end
    else
      var k := BreakIn(content[searchStart..end], SEPARATORS);
      if k == -1 then end else searchStart + k
  }

  /** A break point lies in the last quarter, and on a character boundary. */
  lemma {:induction false} BreakPointInLastQuarter(content: seq<Byte>, start: nat, targetEnd: nat)
    requires ValidUtf8(content) && start < targetEnd <= |content| && IsBoundary(content, targetEnd)
    ensures start + (targetEnd - start) * 3 / 4 < FindBreakPoint(content, start, targetEnd) <= targetEnd
    ensures IsBoundary(content, FindBreakPoint(content, start, targetEnd))
  {
    var searchStart := Snap(content, start + (targetEnd - start) * 3 / 4);
    if searchStart < targetEnd {
      BreakIsBoundary(content, searchStart, targetEnd);
    }
  }

  lemma {:induction false} BreakIsBoundary(content: seq<Byte>, from: nat, to: nat)
    requires ValidUtf8(content) && from <= to <= |content|
    ensures var k := BreakIn(content[from..to], SEPARATORS);
            k != -1 ==> 0 < k <= to - from && IsBoundary(content, from + k)
  {
    var k := BreakIn(content[from..to], SEPARATORS);
    if k != -1 {
      assert content[from..to][k - 1] == content[from + k - 1];
      BoundaryAfterAscii(content, from + k - 1);
    }
  }

  // ---- chunk_text ------------------------------------------------------------------------------

  datatype Span = Span(from: nat, to: nat)

  function EndOf(content: seq<Byte>, maxChars: nat, start: nat): (end: nat)
    requires start < |content|
    ensures end <= |content|
  {
    var end := Snap(content, start + maxChars);
    if end < |content| && start <= end then FindBreakPoint(content, start, end) else end
  }

  function NextStart(content: seq<Byte>, overlap: nat, start: nat, end: nat): (next: nat)
    requires start < |content|
    ensures start < next <= |content|
  {
    var kept := if end - start < overlap then 0 else end - start - overlap;
    Snap(content, start + if kept < 1 then 1 else kept)
  }

  /** Where the loop of `chunk_text` cuts, from `start` on. */
  function SpansFrom(content: seq<Byte>, maxChars: nat, overlap: nat, start: nat): seq<Span>
    decreases |content| - start
  {
    if start >= |content| then []
    else
      var end := EndOf(content, maxChars, start);
      if end >= |content| then [Span(start, end)]
      else [Span(start, end)] + SpansFrom(content, maxChars, overlap, NextStart(content, overlap, start, end))
  }

  function ChunkSpans(content: seq<Byte>, maxTokens: nat, ratio: real): seq<Span> {
    var maxChars := TokensToChars(maxTokens);
    if content == [] then []
    else if |content| <= maxChars then [Span(0, |content|)]
    else SpansFrom(content, maxChars, OverlapChars(maxChars, ratio), 0)
  }

  function TextAt(content: seq<Byte>, span: Span): seq<Byte> {
    if span.from <= span.to <= |content| then content[span.from..span.to] else []
  }

  function TextsAt(content: seq<Byte>, spans: seq<Span>): (r: seq<seq<Byte>>)
    ensures |r| == |spans|
    ensures forall i | 0 <= i < |r| :: r[i] == TextAt(content, spans[i])
  {
    seq(|spans|, i requires 0 <= i < |spans| => TextAt(content, spans[i]))
  }

  /** Every chunk is a non-empty valid text within the token budget. */
  predicate AllFit(chunks: seq<seq<Byte>>, maxTokens: nat) {
    forall i | 0 <= i < |chunks| ::
      chunks[i] != [] && ValidUtf8(chunks[i]) && EstimateTokens(chunks[i]) <= maxTokens
  }

  method ChunkText(content: seq<Byte>, maxTokens: nat, ratio: real) returns (chunks: seq<seq<Byte>>)
    requires ValidUtf8(content)
    ensures chunks == TextsAt(content, ChunkSpans(content, maxTokens, ratio))
    ensures 1 <= maxTokens ==> AllFit(chunks, maxTokens)
  {
    if content == [] {
      return [];
    }
    var maxChars := TokensToChars(maxTokens);
    var overlap := OverlapChars(maxChars, ratio);
    if 1 <= maxTokens {
      ChunksFit(content, maxTokens, ratio);
    }
    if |content| <= maxChars {
      chunks := [content];
      assert content[0..|content|] == content;
    } else {
      chunks := CutLoop(content, maxChars, overlap);
    }
  }

  /** The loop of `chunk_text`. */
  method CutLoop(content: seq<Byte>, maxChars: nat, overlap: nat) returns (chunks: seq<seq<Byte>>)
    requires ValidUtf8(content)
    ensures chunks == TextsAt(content, SpansFrom(content, maxChars, overlap, 0))
  {
    chunks := [];
    var start := 0;
    ghost var done: seq<Span> := [];
    ghost var all := SpansFrom(content, maxChars, overlap, 0);
    while start < |content|
      invariant IsBoundary(content, start) && start <= |content|
      invariant chunks == TextsAt(content, done)
      invariant done + SpansFrom(content, maxChars, overlap, start) == all
      decreases |content| - start
    {
      var chunkEnd := FindChunkEnd(content, maxChars, start);
      chunks := chunks + [content[start..chunkEnd]];
      TextsSnoc(content, done, Span(start, chunkEnd));
      SpansUnfold(content, maxChars, overlap, start, done);
      done := done + [Span(start, chunkEnd)];
      if chunkEnd >= |content| {
        break;
      }
      var kept := if chunkEnd - start < overlap then 0 else chunkEnd - start - overlap;
      var advance := if kept < 1 then 1 else kept;
      ghost var next := NextStart(content, overlap, start, chunkEnd);
      start := SnapToCharBoundary(content, start + advance);
      assert start == next;
    }
    assert done == all;
  }

  /** The first half of a round: the snapped limit, then a natural break before it. */
  method FindChunkEnd(content: seq<Byte>, maxChars: nat, start: nat) returns (chunkEnd: nat)
    requires ValidUtf8(content) && start < |content| && IsBoundary(content, start)
    ensures chunkEnd == EndOf(content, maxChars, start) && start <= chunkEnd
  {
    var limit := if start + maxChars < |content| then start + maxChars else |content|;
    var end := SnapToCharBoundary(content, limit);
    chunkEnd := if end < |content| then FindBreakPoint(content, start, end) else end;
    ChunkEndForward(content, maxChars, start);
  }

  lemma {:induction false} TextsSnoc(content: seq<Byte>, spans: seq<Span>, span: Span)
    ensures TextsAt(content, spans + [span]) == TextsAt(content, spans) + [TextAt(content, span)]
  {
  }

  lemma {:induction false} SpansUnfold(content: seq<Byte>, maxChars: nat, overlap: nat, start: nat, done: seq<Span>)
    requires start < |content|
    ensures var end := EndOf(content, maxChars, start);
            done + SpansFrom(content, maxChars, overlap, start)
            == done + [Span(start, end)]
               + if end >= |content| then []
                 else SpansFrom(content, maxChars, overlap, NextStart(content, overlap, start, end))
  {
  }

  lemma {:induction false} ChunkEndForward(content: seq<Byte>, maxChars: nat, start: nat)
    requires ValidUtf8(content) && start < |content| && IsBoundary(content, start)
    ensures start <= EndOf(content, maxChars, start)
  {
    var end := Snap(content, start + maxChars);
    if start < end < |content| {
      BreakPointInLastQuarter(content, start, end);
    }
  }

  // ---- What the chunks promise -------------------------------------------------------------------

  /** One chunk inside the text: character-aligned, not empty, within the budget of `maxChars`
      characters although it may be up to three bytes longer. */
  predicate GoodSpan(content: seq<Byte>, maxChars: nat, span: Span) {
    && span.from < span.to <= |content|
    && IsBoundary(content, span.from) && IsBoundary(content, span.to)
    && CharCount(content[span.from..span.to]) <= maxChars
    && span.to - span.from <= maxChars + 3
  }

  /** Neighbouring chunks leave no gap, share `overlap` bytes or, the start of the next one being snapped
      to a character, up to three fewer, and both ends move on, the start by more than a quarter of the
      budget. */
  predicate GoodStep(maxChars: nat, overlap: nat, a: Span, b: Span) {
    && a.from < b.from <= a.to < b.to
    && overlap - 3 <= a.to - b.from <= overlap
    && maxChars < 4 * (b.from - a.from)
  }

  predicate Tiles(content: seq<Byte>, maxChars: nat, overlap: nat, start: nat, spans: seq<Span>) {
    && spans != []
    && spans[0].from == start
    && spans[|spans| - 1].to == |content|
    && (forall i | 0 <= i < |spans| :: GoodSpan(content, maxChars, spans[i]))
    && (forall i | 0 <= i < |spans| - 1 :: GoodStep(maxChars, overlap, spans[i], spans[i + 1]))
  }

  lemma {:induction false} SnapNear(s: seq<Byte>, offset: nat)
    requires ValidUtf8(s) && offset <= |s|
    ensures Snap(s, offset) <= offset + 3
  {
    if offset + 4 <= |s| {
      NoFourContinuations(s, offset);
      var k :| offset <= k < offset + 4 && !IsContinuation(s[k]);
      assert IsBoundary(s, k);
    }
  }

  /** The forward snap takes in at most three bytes, all of them continuation bytes, so it adds
      no character. */
  lemma {:induction false} SnappedSpanFits(content: seq<Byte>, maxChars: nat, start: nat, end: nat)
    requires ValidUtf8(content) && start <= end <= Snap(content, start + maxChars)
    ensures CharCount(content[start..end]) <= maxChars
    ensures end - start <= maxChars + 3
  {
    var p := start + maxChars;
    if p < end {
      assert content[start..end] == content[start..p] + content[p..end];
      CharCountAppend(content[start..p], content[p..end]);
      forall i | 0 <= i < end - p ensures IsContinuation(content[p..end][i]) {
        assert !IsBoundary(content, p + i);
      }
      CharCountContinuation(content[p..end]);
      SnapNear(content, p);
    }
  }

  /** A chunk that does not reach the end of the text is longer than three quarters of the budget. */
  lemma {:induction false} EndIsFar(content: seq<Byte>, maxChars: nat, start: nat)
    requires ValidUtf8(content) && 1 <= maxChars
    requires start < |content| && IsBoundary(content, start)
    ensures var end := EndOf(content, maxChars, start);
            && start < end <= Snap(content, start + maxChars)
            && IsBoundary(content, end)
            && (end < |content| ==> start + 3 * maxChars / 4 < end)
  {
    var target := Snap(content, start + maxChars);
    if target < |content| {
      BreakPointInLastQuarter(content, start, target);
      assert maxChars <= target - start;
    }
  }

  lemma {:induction false} FirstSpanGood(content: seq<Byte>, maxChars: nat, start: nat)
    requires ValidUtf8(content) && 1 <= maxChars
    requires start < |content| && IsBoundary(content, start)
    ensures GoodSpan(content, maxChars, Span(start, EndOf(content, maxChars, start)))
  {
    EndIsFar(content, maxChars, start);
    SnappedSpanFits(content, maxChars, start, EndOf(content, maxChars, start));
  }

  /** One round of the loop, seen from the next one. */
  lemma {:induction false} RoundAdvances(content: seq<Byte>, maxChars: nat, overlap: nat, start: nat, end: nat,
        next: nat)
    requires ValidUtf8(content) && 3 <= maxChars && 2 * overlap <= maxChars
    requires start < |content| && IsBoundary(content, start)
    requires end == EndOf(content, maxChars, start) < |content|
    requires next == NextStart(content, overlap, start, end)
    ensures next < |content| && IsBoundary(content, next)
    ensures GoodStep(maxChars, overlap, Span(start, end), Span(next, EndOf(content, maxChars, next)))
  {
    EndIsFar(content, maxChars, start);
    SnapNotPast(content, end - overlap, end);
    SnapNear(content, end - overlap);
    EndIsFar(content, maxChars, next);
  }

  lemma {:induction false} SnapNotPast(content: seq<Byte>, offset: nat, boundary: nat)
    requires offset <= boundary <= |content| && IsBoundary(content, boundary)
    ensures Snap(content, offset) <= boundary
  {
  }

  lemma {:induction false} SpansTile(content: seq<Byte>, maxChars: nat, overlap: nat, start: nat)
    requires ValidUtf8(content) && 3 <= maxChars && 2 * overlap <= maxChars
    requires start < |content| && IsBoundary(content, start)
    ensures Tiles(content, maxChars, overlap, start, SpansFrom(content, maxChars, overlap, start))
    decreases |content| - start
  {
    FirstSpanGood(content, maxChars, start);
    var end := EndOf(content, maxChars, start);
    if end < |content| {
      var next := NextStart(content, overlap, start, end);
      RoundAdvances(content, maxChars, overlap, start, end, next);
      SpansTile(content, maxChars, overlap, next);
      var rest := SpansFrom(content, maxChars, overlap, next);
      assert rest[0] == Span(next, EndOf(content, maxChars, next));
      TilesCons(content, maxChars, overlap, Span(start, end), rest);
    }
  }

  function Times(n: nat, m: nat): nat {
    if n == 0 then 0 else m + Times(n - 1, m)
  }

  lemma {:induction false} TimesIsProduct(n: nat, m: nat)
    ensures Times(n, m) == n * m
  {
    if n > 0 {
      TimesIsProduct(n - 1, m);
    }
  }

  /** Every chunk but the last moves the start on by more than a quarter of the budget. */
  lemma {:induction false} TilesAreFew(content: seq<Byte>, maxChars: nat, overlap: nat, spans: seq<Span>, n: nat)
    requires Tiles(content, maxChars, overlap, 0, spans) && n < |spans|
    ensures Times(n, maxChars) <= 4 * spans[n].from
  {
    if n > 0 {
      TilesAreFew(content, maxChars, overlap, spans, n - 1);
      assert GoodStep(maxChars, overlap, spans[n - 1], spans[n]);
    }
  }

  lemma {:induction false} TilesCons(content: seq<Byte>, maxChars: nat, overlap: nat, first: Span, rest: seq<Span>)
    requires rest != [] && Tiles(content, maxChars, overlap, rest[0].from, rest)
    requires GoodSpan(content, maxChars, first) && GoodStep(maxChars, overlap, first, rest[0])
    ensures Tiles(content, maxChars, overlap, first.from, [first] + rest)
  {
    var spans := [first] + rest;
    forall i | 0 <= i < |spans| - 1 ensures GoodStep(maxChars, overlap, spans[i], spans[i + 1]) {
      if i > 0 {
        assert GoodStep(maxChars, overlap, rest[i - 1], rest[i]);
      }
    }
  }

  /** The whole promise of `chunk_text` for a positive token budget: the chunks cover the text
      without a gap, neighbours share the overlap up to a character, ends strictly increase, every
      chunk fits the token budget, and there are fewer than 1 + 4 * length / maxChars of them,
      whatever the overlap ratio. */
  lemma {:induction false} ChunkTextPromise(content: seq<Byte>, maxTokens: nat, ratio: real)
    requires ValidUtf8(content) && content != [] && 1 <= maxTokens
    ensures var maxChars := TokensToChars(maxTokens);
            var spans := ChunkSpans(content, maxTokens, ratio);
            && Tiles(content, maxChars, OverlapChars(maxChars, ratio), 0, spans)
            && (|spans| - 1) * maxChars < 4 * |content|
            && (forall i | 0 <= i < |spans| :: EstimateTokens(TextAt(content, spans[i])) <= maxTokens)
  {
    var maxChars := TokensToChars(maxTokens);
    if |content| <= maxChars {
      WholeTextTiles(content, maxChars, OverlapChars(maxChars, ratio));
    } else {
      SpansTile(content, maxChars, OverlapChars(maxChars, ratio), 0);
    }
    var spans := ChunkSpans(content, maxTokens, ratio);
    TilesAreFew(content, maxChars, OverlapChars(maxChars, ratio), spans, |spans| - 1);
    TimesIsProduct(|spans| - 1, maxChars);
    assert GoodSpan(content, maxChars, spans[|spans| - 1]);
    forall i | 0 <= i < |spans| ensures EstimateTokens(TextAt(content, spans[i])) <= maxTokens {
      SpanFitsTokens(content, maxTokens, spans[i]);
    }
  }

  lemma {:induction false} WholeTextTiles(content: seq<Byte>, maxChars: nat, overlap: nat)
    requires content != [] && |content| <= maxChars
    ensures Tiles(content, maxChars, overlap, 0, [Span(0, |content|)])
  {
    assert CharCount(content[0..|content|]) <= |content|;
  }

  lemma {:induction false} SpanFitsTokens(content: seq<Byte>, maxTokens: nat, span: Span)
    requires GoodSpan(content, TokensToChars(maxTokens), span)
    ensures EstimateTokens(TextAt(content, span)) <= maxTokens
  {
  }

  lemma {:induction false} ChunksFit(content: seq<Byte>, maxTokens: nat, ratio: real)
    requires ValidUtf8(content) && 1 <= maxTokens
    ensures var chunks := TextsAt(content, ChunkSpans(content, maxTokens, ratio));
            AllFit(chunks, maxTokens)
  {
    if content != [] {
      ChunkTextPromise(content, maxTokens, ratio);
      var spans := ChunkSpans(content, maxTokens, ratio);
      forall i | 0 <= i < |spans| ensures TextAt(content, spans[i]) != [] && ValidUtf8(TextAt(content, spans[i])) {
        assert GoodSpan(content, TokensToChars(maxTokens), spans[i]);
        ValidSlice(content, spans[i].from, spans[i].to);
      }
    }
  }

  // ---- A budget of zero --------------------------------------------------------------------------

  predicate Holds(spans: seq<Span>, b: nat) {
    exists i :: 0 <= i < |spans| && spans[i].from <= b < spans[i].to
  }

  /** Every byte of the text is in some chunk. */
  predicate Covers(content: seq<Byte>, spans: seq<Span>) {
    forall b: nat | b < |content| :: Holds(spans, b)
  }

  lemma {:induction false} TilesCover(content: seq<Byte>, maxChars: nat, overlap: nat, spans: seq<Span>, n: nat, b: nat)
    requires Tiles(content, maxChars, overlap, 0, spans) && n < |spans| && b < spans[n].to
    ensures Holds(spans, b)
    decreases n
  {
    if spans[n].from > b {
      assert n > 0;
      assert GoodStep(maxChars, overlap, spans[n - 1], spans[n]);
      TilesCover(content, maxChars, overlap, spans, n - 1, b);
    }
  }

  lemma {:induction false} ZeroBudgetEmpty(content: seq<Byte>, overlap: nat, start: nat)
    requires start <= |content| && IsBoundary(content, start)
    ensures forall i | 0 <= i < |SpansFrom(content, 0, overlap, start)| ::
      var span := SpansFrom(content, 0, overlap, start)[i]; span.from == span.to
    decreases |content| - start
  {
    if start < |content| {
      assert EndOf(content, 0, start) == start;
      ZeroBudgetEmpty(content, overlap, NextStart(content, overlap, start, start));
    }
  }

  /** The chunks cover the text exactly when the token budget is positive: with a budget of zero
      every chunk of a non-empty text is empty. */
  lemma {:induction false} CoversExactlyWhen(content: seq<Byte>, maxTokens: nat, ratio: real)
    requires ValidUtf8(content)
    ensures Covers(content, ChunkSpans(content, maxTokens, ratio)) <==> 1 <= maxTokens || content == []
  {
    var spans := ChunkSpans(content, maxTokens, ratio);
    if content != [] && 1 <= maxTokens {
      ChunkTextPromise(content, maxTokens, ratio);
      var maxChars := TokensToChars(maxTokens);
      forall b: nat | b < |content| ensures Holds(spans, b) {
        TilesCover(content, maxChars, OverlapChars(maxChars, ratio), spans, |spans| - 1, b);
      }
    } else if content != [] {
      ZeroBudgetEmpty(content, OverlapChars(0, ratio), 0);
      assert !Holds(spans, 0);
    }
  }

  // ---- chunk_by_turns ------------------------------------------------------------------------------

  /** `str::find(": ")`, |s| when absent. */
  function FindColonSpace(s: seq<Byte>): (k: nat)
    ensures k <= |s|
  {
    if OccursAt(s, [COLON, SPACE], 0) || s == [] then 0 else 1 + FindColonSpace(s[1..])
  }

  /** A line opens a turn when a non-empty speaker name stands before its first ": "; `isName`
      decides which names count (letters, digits, '_' and '-' in the source). */
  predicate IsNewTurn(line: seq<Byte>, isName: seq<Byte> -> bool) {
    var k := FindColonSpace(line);
    k + 2 <= |line| && 0 < k && isName(line[..k])
  }

  function DropEmpty(lines: seq<seq<Byte>>): seq<seq<Byte>> {
    if lines != [] && lines[0] == [] then DropEmpty(lines[1..]) else lines
  }

  /** The index of the next line that opens a turn, not counting the first one. */
  function TurnLength(lines: seq<seq<Byte>>, isName: seq<Byte> -> bool): (n: nat)
    requires lines != []
    ensures 1 <= n <= |lines|
    ensures n < |lines| ==> IsNewTurn(lines[n], isName)
    ensures forall i | 1 <= i < n :: !IsNewTurn(lines[i], isName)
  {
    if |lines| == 1 || IsNewTurn(lines[1], isName) then 1
    else 1 + TurnLength(lines[1..], isName)
  }

  /** The lines cut before every line that opens a turn. */
  function Turns(lines: seq<seq<Byte>>, isName: seq<Byte> -> bool): seq<seq<seq<Byte>>>
    decreases |lines|
  {
    if lines == [] then []
    else
      var n := TurnLength(lines, isName);
      [lines[..n]] + Turns(lines[n..], isName)
  }

  function JoinAll(groups: seq<seq<seq<Byte>>>): (r: seq<seq<Byte>>)
    ensures |r| == |groups|
  {
    if groups == [] then [] else [L.Join(groups[0], LF)] + JoinAll(groups[1..])
  }

  /** The text of each turn: blank lines before the first turn are dropped, nothing else is. */
  function TurnTexts(content: seq<Byte>, isName: seq<Byte> -> bool): seq<seq<Byte>> {
    JoinAll(Turns(DropEmpty(L.LinesOf(content, LF, CR)), isName))
  }

  function ChunksOfTurn(turn: seq<Byte>, maxTokens: nat, ratio: real): seq<seq<Byte>> {
    if EstimateTokens(turn) <= maxTokens then [turn]
    else TextsAt(turn, ChunkSpans(turn, maxTokens, ratio))
  }

  function ChunksOfTurns(turns: seq<seq<Byte>>, maxTokens: nat, ratio: real): seq<seq<Byte>> {
    if turns == [] then []
    else ChunksOfTurns(turns[..|turns| - 1], maxTokens, ratio)
         + ChunksOfTurn(turns[|turns| - 1], maxTokens, ratio)
  }

  /** One round of the loop that collects turns. */
  method AddToTurns(turns: seq<seq<Byte>>, current: seq<Byte>, line: seq<Byte>, isName: seq<Byte> -> bool)
    returns (turns': seq<seq<Byte>>, current': seq<Byte>)
    requires ValidUtf8(current) && ValidUtf8(line) && AllGood(turns)
    ensures var opens := IsNewTurn(line, isName) && current != [];
            && turns' == (if opens then turns + [current] else turns)
            && current' == if opens then line else Continued(current, line)
    ensures ValidUtf8(current') && AllGood(turns')
    ensures current' == [] ==> current == [] && turns' == turns
  {
    turns', current' := turns, current;
    ValidContinued(current, line);
    if IsNewTurn(line, isName) && current' != [] {
      turns' := turns' + [current'];
      current' := [];
    }
    if current' != [] {
      current' := current' + [LF];
    }
    current' := current' + line;
  }

  /** The first loop of `chunk_by_turns`. */
  method CollectTurns(content: seq<Byte>, isName: seq<Byte> -> bool) returns (turns: seq<seq<Byte>>)
    requires ValidUtf8(content)
    ensures turns == TurnTexts(content, isName) && AllGood(turns)
  {
    var lines := L.LinesOf(content, LF, CR);
    LinesValid(content);
    turns := [];
    var current: seq<Byte> := [];
    var i := 0;
    while i < |lines|
      invariant 0 <= i <= |lines|
      invariant Closed(turns, current) == JoinAll(Turns(DropEmpty(lines[..i]), isName))
      invariant current == [] ==> turns == []
      invariant ValidUtf8(current) && AllGood(turns)
    {
      LineAdded(lines, i, turns, current, isName);
      turns, current := AddToTurns(turns, current, lines[i], isName);
      i := i + 1;
    }
    assert lines[..|lines|] == lines;
    if current != [] {
      turns := turns + [current];
    }
  }

  method ChunkTurn(turn: seq<Byte>, maxTokens: nat, ratio: real) returns (chunks: seq<seq<Byte>>)
    requires turn != [] && ValidUtf8(turn)
    ensures chunks == ChunksOfTurn(turn, maxTokens, ratio)
    ensures 1 <= maxTokens ==> AllFit(chunks, maxTokens)
  {
    if EstimateTokens(turn) <= maxTokens {
      chunks := [turn];
    } else {
      chunks := ChunkText(turn, maxTokens, ratio);
    }
  }

  method ChunkByTurns(content: seq<Byte>, maxTokens: nat, ratio: real, isName: seq<Byte> -> bool)
    returns (chunks: seq<seq<Byte>>)
    requires ValidUtf8(content)
    ensures chunks == ChunksOfTurns(TurnTexts(content, isName), maxTokens, ratio)
    ensures 1 <= maxTokens ==> AllFit(chunks, maxTokens)
  {
    var turns := CollectTurns(content, isName);
    chunks := ChunkTurns(turns, maxTokens, ratio);
  }

  /** The second loop of `chunk_by_turns`. */
  method ChunkTurns(turns: seq<seq<Byte>>, maxTokens: nat, ratio: real) returns (chunks: seq<seq<Byte>>)
    requires AllGood(turns)
    ensures chunks == ChunksOfTurns(turns, maxTokens, ratio)
    ensures 1 <= maxTokens ==> AllFit(chunks, maxTokens)
  {
    chunks := [];
    var j := 0;
    while j < |turns|
      invariant 0 <= j <= |turns|
      invariant chunks == ChunksOfTurns(turns[..j], maxTokens, ratio)
      invariant 1 <= maxTokens ==> AllFit(chunks, maxTokens)
    {
      var parts := ChunkTurn(turns[j], maxTokens, ratio);
      assert turns[..j + 1][..j] == turns[..j];
      chunks := chunks + parts;
      j := j + 1;
    }
    assert turns[..j] == turns;
  }

  /** The turns found so far, with the one being collected. */
  ghost function Closed(turns: seq<seq<Byte>>, current: seq<Byte>): seq<seq<Byte>> {
    if current == [] then turns else turns + [current]
  }

  /** `current` with one more line behind it. */
  ghost function Continued(current: seq<Byte>, line: seq<Byte>): seq<Byte> {
    if current == [] then line else current + [LF] + line
  }

  lemma {:induction false} ValidContinued(current: seq<Byte>, line: seq<Byte>)
    requires ValidUtf8(current) && ValidUtf8(line)
    ensures ValidUtf8(Continued(current, line))
  {
    ValidAppend(current, [LF]);
    ValidAppend(current + [LF], line);
  }

  lemma {:induction false} LineAdded(lines: seq<seq<Byte>>, i: nat, turns: seq<seq<Byte>>, current: seq<Byte>,
        isName: seq<Byte> -> bool)
    requires i < |lines| && (current == [] ==> turns == [])
    requires Closed(turns, current) == JoinAll(Turns(DropEmpty(lines[..i]), isName))
    ensures var line := lines[i];
            var opens := IsNewTurn(line, isName) && current != [];
            Closed(if opens then turns + [current] else turns, if opens then line else Continued(current, line))
            == JoinAll(Turns(DropEmpty(lines[..i + 1]), isName))
  {
    assert lines[..i + 1] == lines[..i] + [lines[i]];
    AddLine(lines[..i], lines[i], isName);
    assert current != [] ==> (turns + [current])[..|turns|] == turns;
  }

  predicate AllGood(turns: seq<seq<Byte>>) {
    forall i | 0 <= i < |turns| :: turns[i] != [] && ValidUtf8(turns[i])
  }

  lemma {:induction false} LinesValid(s: seq<Byte>)
    requires ValidUtf8(s)
    ensures forall i | 0 <= i < |L.LinesOf(s, LF, CR)| :: ValidUtf8(L.LinesOf(s, LF, CR)[i])
    decreases |s|
  {
    var k := L.IndexOf(s, LF);
    if k < |s| {
      BoundaryAfterAscii(s, k);
      ValidSplit(s, k);
      ValidSplit(s, k + 1);
      var line := L.StripLast(s[..k], CR);
      if line != s[..k] {
        BoundaryAfterAscii(s[..k], k - 1);
        ValidSplit(s[..k], k - 1);
        assert line == s[..k][..k - 1];
      }
      LinesValid(s[k + 1..]);
    }
  }

  /** The groups with one more line at the end. */
  ghost function Extended(groups: seq<seq<seq<Byte>>>, line: seq<Byte>, isName: seq<Byte> -> bool): seq<seq<seq<Byte>>> {
    if groups == [] || IsNewTurn(line, isName) then groups + [[line]]
    else groups[..|groups| - 1] + [groups[|groups| - 1] + [line]]
  }

  lemma {:induction false} ExtendedCons(first: seq<seq<Byte>>, groups: seq<seq<seq<Byte>>>, line: seq<Byte>, isName: seq<Byte> -> bool)
    requires groups != []
    ensures Extended([first] + groups, line, isName) == [first] + Extended(groups, line, isName)
  {
  }

  lemma {:induction false} TurnLengthSnoc(lines: seq<seq<Byte>>, line: seq<Byte>, isName: seq<Byte> -> bool)
    requires lines != []
    ensures var n := TurnLength(lines, isName);
            TurnLength(lines + [line], isName)
            == if n < |lines| || IsNewTurn(line, isName) then n else n + 1
  {
    if |lines| == 1 {
      assert (lines + [line])[1..] == [line];
    } else if !IsNewTurn(lines[1], isName) {
      assert (lines + [line])[1..] == lines[1..] + [line];
      TurnLengthSnoc(lines[1..], line, isName);
    }
  }

  lemma {:induction false} TurnsSnoc(lines: seq<seq<Byte>>, line: seq<Byte>, isName: seq<Byte> -> bool)
    ensures Turns(lines + [line], isName) == Extended(Turns(lines, isName), line, isName)
    decreases |lines|
  {
    if lines == [] {
      assert lines + [line] == [line];
      TurnsOne(line, isName);
    } else {
      var n := TurnLength(lines, isName);
      if n < |lines| {
        var first, rest := lines[..n], lines[n..];
        assert lines == first + rest;
        TurnsSnoc(rest, line, isName);
        LaterTurnsSnoc(first, rest, line, isName);
      } else {
        OneTurnSnoc(lines, line, isName);
      }
    }
  }

  lemma {:induction false} LaterTurnsSnoc(first: seq<seq<Byte>>, rest: seq<seq<Byte>>, line: seq<Byte>,
        isName: seq<Byte> -> bool)
    requires first != [] && rest != [] && |first| == TurnLength(first + rest, isName)
    requires Turns(rest + [line], isName) == Extended(Turns(rest, isName), line, isName)
    ensures Turns(first + rest + [line], isName) == Extended(Turns(first + rest, isName), line, isName)
  {
    TurnLengthSnoc(first + rest, line, isName);
    TurnsUnfold(first + rest, first, rest, isName);
    assert first + rest + [line] == first + (rest + [line]);
    TurnsUnfold(first + rest + [line], first, rest + [line], isName);
    ExtendedCons(first, Turns(rest, isName), line, isName);
  }

  /** The lines are all of one turn. */
  lemma {:induction false} OneTurnSnoc(lines: seq<seq<Byte>>, line: seq<Byte>, isName: seq<Byte> -> bool)
    requires lines != [] && TurnLength(lines, isName) == |lines|
    ensures Turns(lines + [line], isName) == Extended([lines], line, isName)
    ensures Turns(lines, isName) == [lines]
  {
    TurnLengthSnoc(lines, line, isName);
    OneTurn(lines, isName);
    if IsNewTurn(line, isName) {
      TurnsUnfold(lines + [line], lines, [line], isName);
      TurnsOne(line, isName);
    } else {
      OneTurn(lines + [line], isName);
    }
  }

  lemma {:induction false} OneTurn(lines: seq<seq<Byte>>, isName: seq<Byte> -> bool)
    requires lines != [] && TurnLength(lines, isName) == |lines|
    ensures Turns(lines, isName) == [lines]
  {
    assert lines[..|lines|] == lines && lines[|lines|..] == [];
  }

  lemma {:induction false} TurnsUnfold(lines: seq<seq<Byte>>, first: seq<seq<Byte>>, rest: seq<seq<Byte>>,
        isName: seq<Byte> -> bool)
    requires lines == first + rest && lines != [] && |first| == TurnLength(lines, isName)
    ensures Turns(lines, isName) == [first] + Turns(rest, isName)
  {
    assert lines[..|first|] == first && lines[|first|..] == rest;
  }

  lemma {:induction false} TurnsNonEmpty(lines: seq<seq<Byte>>, isName: seq<Byte> -> bool, i: nat)
    requires i < |Turns(lines, isName)|
    ensures Turns(lines, isName)[i] != []
    decreases |lines|
  {
    if i > 0 {
      TurnsNonEmpty(lines[TurnLength(lines, isName)..], isName, i - 1);
    }
  }

  lemma {:induction false} TurnsOne(line: seq<Byte>, isName: seq<Byte> -> bool)
    ensures Turns([line], isName) == [[line]]
  {
    var lines := [line];
    assert lines[..1] == [line] && lines[1..] == [];
  }

  lemma {:induction false} JoinAllAppend(a: seq<seq<seq<Byte>>>, b: seq<seq<seq<Byte>>>)
    ensures JoinAll(a + b) == JoinAll(a) + JoinAll(b)
  {
    if a == [] {
      assert a + b == b;
    } else {
      assert (a + b)[1..] == a[1..] + b;
      JoinAllAppend(a[1..], b);
    }
  }

  lemma {:induction false} JoinAllOne(group: seq<seq<Byte>>)
    ensures JoinAll([group]) == [L.Join(group, LF)]
  {
    var groups := [group];
    assert groups[1..] == [];
  }

  lemma {:induction false} DropEmptySnoc(lines: seq<seq<Byte>>, line: seq<Byte>)
    ensures DropEmpty(lines + [line]) == if DropEmpty(lines) == [] && line == [] then [] else DropEmpty(lines) + [line]
  {
    if lines == [] {
      assert (lines + [line])[1..] == [];
    } else if lines[0] == [] {
      assert (lines + [line])[1..] == lines[1..] + [line];
      DropEmptySnoc(lines[1..], line);
    }
  }

  /** One more line either starts a turn, or continues the last one behind a line feed. */
  lemma {:induction false} AddLine(lines: seq<seq<Byte>>, line: seq<Byte>, isName: seq<Byte> -> bool)
    ensures var before := JoinAll(Turns(DropEmpty(lines), isName));
            var after := JoinAll(Turns(DropEmpty(lines + [line]), isName));
            if before == [] then after == (if line == [] then [] else [line])
            else if IsNewTurn(line, isName) then after == before + [line]
            else after == before[..|before| - 1] + [before[|before| - 1] + [LF] + line]
  {
    var kept := DropEmpty(lines);
    DropEmptySnoc(lines, line);
    TurnsSnoc(kept, line, isName);
    var groups := Turns(kept, isName);
    if groups == [] || IsNewTurn(line, isName) {
      JoinAllAppend(groups, [[line]]);
      JoinAllOne([line]);
    } else {
      var last := groups[|groups| - 1];
      TurnsNonEmpty(kept, isName, |groups| - 1);
      assert groups == groups[..|groups| - 1] + [last];
      JoinExtended(groups[..|groups| - 1], last, line);
    }
  }

  lemma {:induction false} JoinExtended(front: seq<seq<seq<Byte>>>, last: seq<seq<Byte>>, line: seq<Byte>)
    requires last != []
    ensures JoinAll(front + [last]) == JoinAll(front) + [L.Join(last, LF)]
    ensures JoinAll(front + [last + [line]]) == JoinAll(front) + [L.Join(last, LF) + [LF] + line]
  {
    L.JoinSnoc(last, line, LF);
    JoinAllAppend(front, [last]);
    JoinAllAppend(front, [last + [line]]);
    JoinAllOne(last);
    JoinAllOne(last + [line]);
  }

  /** Nothing but leading blank lines is lost: the turns, joined again, are the lines joined. */
  lemma {:induction false} TurnsKeepText(lines: seq<seq<Byte>>, isName: seq<Byte> -> bool)
    ensures L.Join(JoinAll(Turns(lines, isName)), LF) == L.Join(lines, LF)
    ensures lines != [] ==> Turns(lines, isName) != []
    decreases |lines|
  {
    if lines != [] {
      var n := TurnLength(lines, isName);
      TurnsKeepText(lines[n..], isName);
      JoinSplit(lines, n);
      if n == |lines| {
        assert lines[..n] == lines && lines[n..] == [];
        assert Turns([], isName) == [];
      }
    }
  }

  lemma {:induction false} JoinSplit(lines: seq<seq<Byte>>, n: nat)
    requires 1 <= n <= |lines|
    ensures n < |lines| ==> L.Join(lines, LF) == L.Join(lines[..n], LF) + [LF] + L.Join(lines[n..], LF)
  {
    if n < |lines| {
      if n == 1 {
        assert lines[..1] == [lines[0]];
      } else {
        JoinSplit(lines[1..], n - 1);
        assert lines[1..][..n - 1] == lines[..n][1..];
        assert lines[1..][n - 1..] == lines[n..];
      }
    }
  }
}

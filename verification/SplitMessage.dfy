/** Splitting a message into pieces Telegram accepts (crates/rustykrab-channels/src/telegram.rs).

    A `&str` is a sequence of characters here; a byte offset on a character boundary is the
    number of characters before it, and lengths are still counted in UTF-8 bytes. */
module SplitMessage {
  import opened Search
  import opened Strings

  /** `str::floor_char_boundary`: how many characters fit into `maxLen` bytes. */
  function FloorBoundary(s: string, maxLen: nat): (k: nat)
    ensures k <= |s|
    ensures ByteLen(s[..k]) <= maxLen
    ensures k == 0 && s != [] ==> maxLen < Width(s[0])
  {
    if s == [] || maxLen < Width(s[0]) then 0
    else
      var k := FloorBoundary(s[1..], maxLen - Width(s[0]));
      assert s[..k + 1][1..] == s[1..][..k];
      k + 1
  }

  /** The end of the last occurrence of `sep` that is not at the very start, or -1. */
  function SplitAfter(window: string, sep: string): (k: int)
    requires sep != []
    ensures k == -1 || (0 < k <= |window|)
  {
    var pos := RFind(window, sep);
    if pos > 0 then pos + |sep| else -1
  }

  /** Paragraphs, then lines, then sentences, then words. */
  const SEPARATORS: seq<string> := ["\n\n", "\n", ". ", "! ", "? ", " "]

  function SplitIn(window: string, seps: seq<string>): (k: nat)
    requires forall i | 0 <= i < |seps| :: seps[i] != []
    ensures k <= |window|
    ensures window != [] ==> 0 < k
  {
    if seps == [] then |window|
    else if SplitAfter(window, seps[0]) != -1 then SplitAfter(window, seps[0])
    else SplitIn(window, seps[1..])
  }

  function FindSplitPoint(window: string): (k: nat)
    ensures k <= |window|
    ensures window != [] ==> 0 < k
  {
    SplitIn(window, SEPARATORS)
  }

  /** The pieces cut from what remains of the message. */
  function Pieces(remaining: string, maxLen: nat): seq<string>
    decreases |remaining|
  {
    var safeEnd := FloorBoundary(remaining, maxLen);
    if remaining == [] then []
    else if ByteLen(remaining) <= maxLen || safeEnd == 0 then [remaining]
    else
      var splitAt := FindSplitPoint(remaining[..safeEnd]);
      [TrimEnd(remaining[..splitAt])] + Pieces(TrimStart(remaining[splitAt..]), maxLen)
  }

  function Split(text: string, maxLen: nat): seq<string> {
    if ByteLen(text) <= maxLen then [text] else Pieces(text, maxLen)
  }

  method SplitText(text: string, maxLen: nat) returns (chunks: seq<string>)
    ensures chunks == Split(text, maxLen)
    ensures Woven(text, chunks)
    ensures 4 <= maxLen ==> AllFit(chunks, maxLen)
    ensures text != [] && !IsWhitespace(text[0]) ==> [] !in chunks
  {
    WovenSplit(text, maxLen);
    if 4 <= maxLen {
      SplitFits(text, maxLen);
    }
    if text != [] && !IsWhitespace(text[0]) {
      NoEmptyChunk(text, maxLen);
    }
    if ByteLen(text) <= maxLen {
      return [text];
    }
    chunks := [];
    var remaining := text;
    while remaining != []
      invariant chunks + Pieces(remaining, maxLen) == Split(text, maxLen)
      decreases |remaining|
    {
      if ByteLen(remaining) <= maxLen {
        chunks := chunks + [remaining];
        break;
      }
      var safeEnd := FloorBoundary(remaining, maxLen);
      if safeEnd == 0 {
        chunks := chunks + [remaining];
        break;
      }
      var splitAt := FindSplitPoint(remaining[..safeEnd]);
      ghost var before := remaining;
      var piece := TrimEnd(remaining[..splitAt]);
      remaining := TrimStart(remaining[splitAt..]);
      assert Pieces(before, maxLen) == [piece] + Pieces(remaining, maxLen);
      assert chunks + Pieces(before, maxLen) == chunks + [piece] + Pieces(remaining, maxLen);
      chunks := chunks + [piece];
    }
  }

  // ---- Nothing but whitespace is lost ------------------------------------------------------------

  /** `text` is the chunks in order, with only whitespace before, between and behind them. */
  ghost predicate Woven(text: string, chunks: seq<string>)
    decreases |chunks|
  {
    if chunks == [] then AllWhitespace(text)
    else exists gap :: 0 <= gap <= |text| && WovenBehind(text, gap, chunks)
  }

  ghost predicate WovenBehind(text: string, gap: nat, chunks: seq<string>)
    requires chunks != [] && gap <= |text|
    decreases |chunks|, 0
  {
    && AllWhitespace(text[..gap])
    && chunks[0] <= text[gap..]
    && Woven(text[gap + |chunks[0]|..], chunks[1..])
  }

  lemma {:induction false} WovenSkip(ws: string, text: string, chunks: seq<string>)
    requires AllWhitespace(ws) && Woven(text, chunks)
    ensures Woven(ws + text, chunks)
  {
    if chunks != [] {
      var gap :| 0 <= gap <= |text| && WovenBehind(text, gap, chunks);
      assert (ws + text)[..|ws| + gap] == ws + text[..gap];
      assert (ws + text)[|ws| + gap..] == text[gap..];
      assert (ws + text)[|ws| + gap + |chunks[0]|..] == text[gap + |chunks[0]|..];
      assert WovenBehind(ws + text, |ws| + gap, chunks);
    }
  }

  lemma {:induction false} WovenPieces(remaining: string, maxLen: nat)
    ensures Woven(remaining, Pieces(remaining, maxLen))
    decreases |remaining|
  {
    var safeEnd := FloorBoundary(remaining, maxLen);
    if remaining == [] {
    } else if ByteLen(remaining) <= maxLen || safeEnd == 0 {
      WovenOne(remaining);
    } else {
      var splitAt := FindSplitPoint(remaining[..safeEnd]);
      var rest := TrimStart(remaining[splitAt..]);
      WovenPieces(rest, maxLen);
      WovenAt(remaining, splitAt, Pieces(rest, maxLen));
    }
  }

  lemma {:induction false} WovenAt(text: string, splitAt: nat, rest: seq<string>)
    requires splitAt <= |text| && Woven(TrimStart(text[splitAt..]), rest)
    ensures Woven(text, [TrimEnd(text[..splitAt])] + rest)
  {
    var head, tail := text[..splitAt], text[splitAt..];
    WovenCons(head, tail, rest);
    assert head + tail == text;
  }

  lemma {:induction false} WovenCons(head: string, tail: string, rest: seq<string>)
    requires Woven(TrimStart(tail), rest)
    ensures Woven(head + tail, [TrimEnd(head)] + rest)
  {
    var e, s := TextEnd(head), TextStart(tail);
    WhitespaceAround(head, tail);
    WovenFirst(head[..e], head[e..] + tail[..s], tail[s..], rest);
    CutTwice(head, e, tail, s);
  }

  lemma {:induction false} WhitespaceAround(head: string, tail: string)
    ensures AllWhitespace(head[TextEnd(head)..] + tail[..TextStart(tail)])
  {
  }

  lemma {:induction false} CutTwice(a: string, i: nat, b: string, j: nat)
    requires i <= |a| && j <= |b|
    ensures a[..i] + (a[i..] + b[..j] + b[j..]) == a + b
  {
  }

  lemma {:induction false} WovenFirst(chunk: string, ws: string, text: string, rest: seq<string>)
    requires AllWhitespace(ws) && Woven(text, rest)
    ensures Woven(chunk + (ws + text), [chunk] + rest)
  {
    WovenSkip(ws, text, rest);
    var whole, chunks := chunk + (ws + text), [chunk] + rest;
    assert chunks[1..] == rest;
    assert whole[0 + |chunk|..] == ws + text && whole[0..] == whole;
    assert WovenBehind(whole, 0, chunks);
  }

  lemma {:induction false} WovenOne(text: string)
    ensures Woven(text, [text])
  {
    assert text[0..] == text && text[..0] == [] && text[|text|..] == [];
    var chunks := [text];
    assert chunks[1..] == [];
    assert WovenBehind(text, 0, chunks);
  }

  lemma {:induction false} WovenSplit(text: string, maxLen: nat)
    ensures Woven(text, Split(text, maxLen))
  {
    if ByteLen(text) <= maxLen {
      WovenOne(text);
    } else {
      WovenPieces(text, maxLen);
    }
  }

  // ---- Every chunk fits --------------------------------------------------------------------------

  predicate AllFit(chunks: seq<string>, maxLen: nat) {
    forall i | 0 <= i < |chunks| :: ByteLen(chunks[i]) <= maxLen
  }

  lemma {:induction false} ByteLenPrefix(s: string, k: nat)
    requires k <= |s|
    ensures ByteLen(s[..k]) <= ByteLen(s)
  {
    if k > 0 {
      ByteLenPrefix(s[1..], k - 1);
      assert s[..k][1..] == s[1..][..k - 1];
    }
  }

  lemma {:induction false} PiecesFit(remaining: string, maxLen: nat)
    requires 4 <= maxLen
    ensures AllFit(Pieces(remaining, maxLen), maxLen)
    decreases |remaining|
  {
    if remaining != [] && ByteLen(remaining) > maxLen {
      var safeEnd := FloorBoundary(remaining, maxLen);
      var splitAt := FindSplitPoint(remaining[..safeEnd]);
      var piece := TrimEnd(remaining[..splitAt]);
      assert remaining[..safeEnd][..|piece|] == piece;
      ByteLenPrefix(remaining[..safeEnd], |piece|);
      PiecesFit(TrimStart(remaining[splitAt..]), maxLen);
    }
  }

  lemma {:induction false} SplitFits(text: string, maxLen: nat)
    requires 4 <= maxLen
    ensures AllFit(Split(text, maxLen), maxLen)
  {
    PiecesFit(text, maxLen);
  }

  ghost predicate AlwaysFits(maxLen: nat) {
    forall text: string :: AllFit(Split(text, maxLen), maxLen)
  }

  /** The limit is kept for every message exactly when the widest character fits into it. */
  lemma {:induction false} FitsExactlyWhen(maxLen: nat)
    ensures AlwaysFits(maxLen) <==> 4 <= maxLen
  {
    if 4 <= maxLen {
      forall text: string ensures AllFit(Split(text, maxLen), maxLen) {
        SplitFits(text, maxLen);
      }
    } else {
      var text := [0x1_F600 as char];
      assert text[1..] == [];
      assert ByteLen(text) == 4;
      var chunks := Split(text, maxLen);
      assert chunks == [text];
      assert ByteLen(chunks[0]) == 4;
    }
  }

  // ---- Empty chunks ------------------------------------------------------------------------------

  lemma {:induction false} PiecesNotEmpty(remaining: string, maxLen: nat)
    requires remaining != [] ==> !IsWhitespace(remaining[0])
    ensures forall i | 0 <= i < |Pieces(remaining, maxLen)| :: Pieces(remaining, maxLen)[i] != []
    decreases |remaining|
  {
    var safeEnd := FloorBoundary(remaining, maxLen);
    if remaining != [] && ByteLen(remaining) > maxLen && safeEnd != 0 {
      var splitAt := FindSplitPoint(remaining[..safeEnd]);
      assert remaining[..splitAt][0] == remaining[0];
      PiecesNotEmpty(TrimStart(remaining[splitAt..]), maxLen);
    }
  }

  /** A message that does not start with whitespace has no empty chunk ... */
  lemma {:induction false} NoEmptyChunk(text: string, maxLen: nat)
    requires text != [] && !IsWhitespace(text[0])
    ensures [] !in Split(text, maxLen)
  {
    PiecesNotEmpty(text, maxLen);
  }

  lemma {:induction false} SecondPart<T>(first: T, others: seq<T>, i: nat)
    requires 0 < i <= |others|
    ensures ([first] + others)[i] == others[i - 1]
  {
  }

  /** ... and in any message only the first chunk can be empty. */
  lemma {:induction false} OnlyFirstChunkCanBeEmpty(text: string, maxLen: nat, i: nat)
    requires 0 < i < |Split(text, maxLen)|
    ensures Split(text, maxLen)[i] != []
  {
    var splitAt := FindSplitPoint(text[..FloorBoundary(text, maxLen)]);
    var rest := TrimStart(text[splitAt..]);
    var first, others := TrimEnd(text[..splitAt]), Pieces(rest, maxLen);
    assert Split(text, maxLen) == [first] + others;
    PiecesNotEmpty(rest, maxLen);
    SecondPart(first, others, i);
  }

  /** The first cut leaves nothing but whitespace before it. */
  predicate BlankFirstCut(text: string, maxLen: nat) {
    var safeEnd := FloorBoundary(text, maxLen);
    && ByteLen(text) > maxLen && safeEnd > 0
    && AllWhitespace(text[..FindSplitPoint(text[..safeEnd])])
  }

  /** There is an empty chunk exactly when the message is empty, or it is too long and blank as far as
      its first split point. */
  lemma {:induction false} EmptyChunkExactlyWhen(text: string, maxLen: nat)
    ensures [] in Split(text, maxLen) <==> text == [] || BlankFirstCut(text, maxLen)
  {
    var safeEnd := FloorBoundary(text, maxLen);
    if text != [] && ByteLen(text) > maxLen && safeEnd > 0 {
      var splitAt := FindSplitPoint(text[..safeEnd]);
      var rest := TrimStart(text[splitAt..]);
      var first, others := TrimEnd(text[..splitAt]), Pieces(rest, maxLen);
      assert Split(text, maxLen) == [first] + others;
      PiecesNotEmpty(rest, maxLen);
      assert [] in [first] + others <==> first == [];
      BlankIsTrimmed(text[..splitAt]);
    }
  }

  lemma {:induction false} BlankIsTrimmed(s: string)
    ensures TrimEnd(s) == [] <==> AllWhitespace(s)
  {
  }

  /** Such a message: three line feeds and two letters, with room for four bytes. */
  lemma {:induction false} BlankStartLeavesEmptyChunk()
    ensures Split("\n\n\nab", 4)[0] == []
  {
    var text := "\n\n\nab";
    assert text[1..] == "\n\nab" && text[2..] == "\nab" && text[3..] == "ab" && text[4..] == "b";
    assert text[1..][1..] == text[2..] && text[2..][1..] == text[3..] && text[3..][1..] == text[4..] && text[4..][1..] == [];
    assert ByteLen(text) == 5;
    assert FloorBoundary(text, 4) == 4;
    var window := text[..4];
    assert window == "\n\n\na";
    assert OccursAt(window, "\n\n", 1);
    assert window[2..4] == "\na";
    assert !OccursAt(window, "\n\n", 2);
    RFindIsLast(window, "\n\n", 1);
    assert RFind(window, "\n\n") == 1;
    assert FindSplitPoint(window) == 3;
    assert text[..3] == "\n\n\n";
    assert AllWhitespace(text[..3]);
    assert TrimEnd(text[..3]) == [];
  }
}

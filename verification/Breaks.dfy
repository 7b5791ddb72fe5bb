/** Where texts are cut: the separators that are preferred (crates/rustykrab-memory/src/chunking.rs,
    `find_break_point`, and crates/rustykrab-channels/src/telegram.rs, `find_split_point`), and that a
    piece of a message is as long as the limit allows. */
module Breaks {
  import opened Search
  import opened Utf8
  import C = Chunking
  import M = SplitMessage
  import S = Strings

  ghost predicate Absent<T>(s: seq<T>, pat: seq<T>) {
    forall j :: !OccursAt(s, pat, j)
  }

  /** `k` is where the last occurrence of `pat` ends. */
  ghost predicate EndsLast<T>(s: seq<T>, pat: seq<T>, k: int) {
    OccursAt(s, pat, k - |pat|) && forall j :: OccursAt(s, pat, j) ==> j + |pat| <= k
  }

  lemma {:induction false} FoundLast<T>(s: seq<T>, pat: seq<T>)
    requires pat != []
    ensures if RFind(s, pat) >= 0 then EndsLast(s, pat, RFind(s, pat) + |pat|) else Absent(s, pat)
  {
    forall j | OccursAt(s, pat, j) ensures j <= RFind(s, pat) {
      RFindIsLast(s, pat, j);
    }
  }

  // ---- Chunks ------------------------------------------------------------------------------

  lemma {:induction false} BreakInIs(region: seq<Byte>, seps: seq<seq<Byte>>) returns (m: nat)
    requires C.AllEndInAscii(seps)
    ensures m <= |seps| && forall i :: 0 <= i < m ==> Absent(region, seps[i])
    ensures if m < |seps| then EndsLast(region, seps[m], C.BreakIn(region, seps)) else C.BreakIn(region, seps) == -1
  {
    m := 0;
    if seps != [] {
      assert C.EndsInAscii(seps[0]);
      FoundLast(region, seps[0]);
      if RFind(region, seps[0]) < 0 {
        var n := BreakInIs(region, seps[1..]);
        m := n + 1;
      }
    }
  }

  /** Full stops, exclamation marks and question marks with a space behind them, line feeds, spaces. */
  const MARKS: seq<seq<Byte>> := [[0x2E, 0x20], [0x21, 0x20], [0x3F, 0x20], [0x0A], [0x20]]

  /** In the last quarter of the budget a chunk ends behind the last occurrence of the first of these
      marks that occurs there, and at the budget when none does. */
  lemma {:induction false} ChunksPreferSentences(content: seq<Byte>, start: nat, end: nat, from: nat)
    returns (m: nat)
    requires ValidUtf8(content) && start < end <= |content| && IsBoundary(content, end)
    requires from == C.Snap(content, start + (end - start) * 3 / 4) && from < end
    ensures m <= 5 && forall i :: 0 <= i < m ==> Absent(content[from..end], MARKS[i])
    ensures
      var k := C.FindBreakPoint(content, start, end);
      if m < 5 then EndsLast(content[from..end], MARKS[m], k - from) else k == end
  {
    assert C.SEPARATORS == MARKS;
    m := BreakInIs(content[from..end], C.SEPARATORS);
  }

  // ---- Messages ----------------------------------------------------------------------------

  /** `k` is where the last occurrence of `sep` ends; one at the very start does not count. */
  ghost predicate SplitsLast(s: string, sep: string, k: int) {
    EndsLast(s, sep, k) && k > |sep|
  }

  ghost predicate OnlyAtStart(s: string, sep: string) {
    forall j :: OccursAt(s, sep, j) ==> j == 0
  }

  lemma {:induction false} SplitInIs(window: string, seps: seq<string>) returns (m: nat)
    requires forall i | 0 <= i < |seps| :: seps[i] != []
    ensures m <= |seps| && forall i :: 0 <= i < m ==> OnlyAtStart(window, seps[i])
    ensures if m < |seps| then SplitsLast(window, seps[m], M.SplitIn(window, seps)) else M.SplitIn(window, seps) == |window|
  {
    m := 0;
    if seps != [] {
      FoundLast(window, seps[0]);
      if M.SplitAfter(window, seps[0]) == -1 {
        var n := SplitInIs(window, seps[1..]);
        m := n + 1;
      }
    }
  }

  /** What fits of a message is cut behind the last blank line, else the last line feed, else the last
      sentence that ends with a full stop, an exclamation mark or a question mark, else the last space,
      else at the limit. */
  lemma {:induction false} MessagesPreferParagraphs(window: string) returns (m: nat)
    ensures
      var seps := ["\n\n", "\n", ". ", "! ", "? ", " "];
      && m <= 6 && (forall i :: 0 <= i < m ==> OnlyAtStart(window, seps[i]))
      && if m < 6 then SplitsLast(window, seps[m], M.FindSplitPoint(window)) else M.FindSplitPoint(window) == |window|
  {
    m := SplitInIs(window, M.SEPARATORS);
  }

  lemma {:induction false} WidthOfFirst(s: string)
    requires s != []
    ensures S.ByteLen(s[..1]) == S.Width(s[0])
  {
    assert s[..1][1..] == [];
  }

  /** What is cut from is as much of the message as the limit allows. */
  lemma {:induction false} WindowIsFull(s: string, maxLen: nat)
    ensures
      var k := M.FloorBoundary(s, maxLen);
      S.ByteLen(s[..k]) <= maxLen && (k < |s| ==> maxLen < S.ByteLen(s[..k + 1]))
  {
    if s != [] {
      if maxLen < S.Width(s[0]) {
        WidthOfFirst(s);
      } else {
        var rest, left := s[1..], maxLen - S.Width(s[0]);
        WindowIsFull(rest, left);
        var k := M.FloorBoundary(rest, left);
        if k < |rest| {
          assert s[..k + 2][1..] == rest[..k + 1];
        }
      }
    }
  }

  // ---- Turns -------------------------------------------------------------------------------

  lemma {:induction false} FirstColonSpace(line: seq<Byte>)
    ensures
      var k, mark := C.FindColonSpace(line), [0x3A, 0x20];
      && (forall j :: OccursAt(line, mark, j) ==> k <= j)
      && (k + 2 <= |line| <==> exists j :: OccursAt(line, mark, j))
      && (k + 2 <= |line| ==> OccursAt(line, mark, k))
  {
    var mark: seq<Byte> := [0x3A, 0x20];
    if line != [] && !OccursAt(line, mark, 0) {
      var rest := line[1..];
      FirstColonSpace(rest);
      forall j | 1 <= j ensures OccursAt(line, mark, j) <==> OccursAt(rest, mark, j - 1) {
        if j + 2 <= |line| {
          assert line[j..j + 2] == rest[j - 1..j + 1];
        }
      }
      if C.FindColonSpace(line) + 2 <= |line| {
        assert OccursAt(rest, mark, C.FindColonSpace(rest));
        assert OccursAt(line, mark, C.FindColonSpace(line));
      }
    }
  }

  ghost predicate FirstMark(line: seq<Byte>, k: nat) {
    OccursAt(line, [0x3A, 0x20], k) && forall j :: OccursAt(line, [0x3A, 0x20], j) ==> k <= j
  }

  lemma {:induction false} MarkIsFound(line: seq<Byte>, k: nat)
    ensures FirstMark(line, k) <==> k == C.FindColonSpace(line) && k + 2 <= |line|
  {
    FirstColonSpace(line);
  }

  /** A line opens a turn exactly when its first colon with a space behind it ends a name. */
  lemma {:induction false} OpensTurnExactlyWhen(line: seq<Byte>, isName: seq<Byte> -> bool)
    ensures C.IsNewTurn(line, isName) <==> exists k: nat :: 0 < k <= |line| && FirstMark(line, k) && isName(line[..k])
  {
    MarkIsFound(line, C.FindColonSpace(line));
    if k: nat :| 0 < k <= |line| && FirstMark(line, k) && isName(line[..k]) {
      MarkIsFound(line, k);
    }
  }
}

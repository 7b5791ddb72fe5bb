/** The patch tool: a unified-diff parser and a hunk applier (crates/rustykrab-tools/src/apply_patch.rs). */
module ApplyPatch {
  import opened Options
  import opened Seqs
  import L = Lines

  datatype DiffLine = Context(text: string) | Add(text: string) | Remove(text: string)

  datatype Hunk = Hunk(oldStart: nat, oldCount: nat, lines: seq<DiffLine>)

  datatype FileDiff = FileDiff(path: string, hunks: seq<Hunk>)

  datatype PatchError = InvalidHeader(header: string) | InvalidNumber(text: string) | NoFileDiffs

  type Result<+T> = Outcome<T, PatchError>

  function TextLines(text: string): seq<string> {
    L.LinesOf(text, '\n', '\r')
  }

  // ---- Applying hunks ----------------------------------------------------------------------------

  function Min(a: nat, b: nat): nat { if a < b then a else b }
  function Max(a: nat, b: nat): nat { if a < b then b else a }

  /** Old lines from `from` up to `to`, as far as there are any. */
  function Copied(orig: seq<string>, from: nat, to: nat): seq<string> {
    if from < Min(to, |orig|) then orig[from..Min(to, |orig|)] else []
  }

  /** What one line of a hunk emits when the next old line is `idx`: context comes from the old file. */
  function LineOut(orig: seq<string>, idx: nat, line: DiffLine): seq<string> {
    match line
    case Context(_) => Copied(orig, idx, idx + 1)
    case Remove(_) => []
    case Add(text) => [text]
  }

  /** What the lines of a hunk emit when the next old line is `idx`, and the next old line after them. */
  function BodyOut(orig: seq<string>, idx: nat, lines: seq<DiffLine>): seq<string>
    decreases |lines|
  {
    if lines == [] then []
    else LineOut(orig, idx, lines[0]) + BodyOut(orig, AfterLine(orig, idx, lines[0]), lines[1..])
  }

  function AfterLine(orig: seq<string>, idx: nat, line: DiffLine): nat {
    match line
    case Context(_) => if idx < |orig| then idx + 1 else idx
    case Remove(_) => idx + 1
    case Add(_) => idx
  }

  function BodyEnd(orig: seq<string>, idx: nat, lines: seq<DiffLine>): nat
    decreases |lines|
  {
    if lines == [] then idx else BodyEnd(orig, AfterLine(orig, idx, lines[0]), lines[1..])
  }

  /** The texts of the old lines a hunk names: its context and removed lines. */
  function OldOf(lines: seq<DiffLine>): seq<string> {
    if lines == [] then []
    else (if lines[0].Add? then [] else [lines[0].text]) + OldOf(lines[1..])
  }

  /** The texts of the new lines: context and added lines. */
  function NewOf(lines: seq<DiffLine>): seq<string> {
    if lines == [] then []
    else (if lines[0].Remove? then [] else [lines[0].text]) + NewOf(lines[1..])
  }

  function HunkStart(hunk: Hunk): nat {
    if hunk.oldStart == 0 then 0 else hunk.oldStart - 1
  }

  /** Old lines a hunk counts but does not name are skipped. */
  function AfterHunk(orig: seq<string>, hunk: Hunk, idx: nat): nat {
    var end := BodyEnd(orig, idx, hunk.lines);
    var named := |OldOf(hunk.lines)|;
    if named < hunk.oldCount && end < |orig| then Min(end + (hunk.oldCount - named), |orig|) else end
  }

  /** Where the lines of a hunk begin: the lines before it are copied as far as there are any. */
  function BodyStart(orig: seq<string>, hunk: Hunk, idx: nat): nat {
    Max(idx, Min(HunkStart(hunk), |orig|))
  }

  function HunkOut(orig: seq<string>, hunk: Hunk, idx: nat): seq<string> {
    Copied(orig, idx, HunkStart(hunk)) + BodyOut(orig, BodyStart(orig, hunk, idx), hunk.lines)
  }

  function HunkEnd(orig: seq<string>, hunk: Hunk, idx: nat): nat {
    AfterHunk(orig, hunk, BodyStart(orig, hunk, idx))
  }

  /** The result of the remaining hunks when the next old line is `idx`. */
  function ApplyFrom(orig: seq<string>, hunks: seq<Hunk>, idx: nat): seq<string> {
    if hunks == [] then Copied(orig, idx, |orig|)
    else HunkOut(orig, hunks[0], idx) + ApplyFrom(orig, hunks[1..], HunkEnd(orig, hunks[0], idx))
  }

  lemma {:induction false} ApplyFromCons(orig: seq<string>, h: Hunk, later: seq<Hunk>, idx: nat)
    ensures ApplyFrom(orig, [h] + later, idx) == HunkOut(orig, h, idx) + ApplyFrom(orig, later, HunkEnd(orig, h, idx))
  {
    assert ([h] + later)[1..] == later;
  }

  lemma {:induction false} CopiedFirst(orig: seq<string>, idx: nat, to: nat)
    requires idx < |orig| && idx < to
    ensures Copied(orig, idx, to) == [orig[idx]] + Copied(orig, idx + 1, to)
  {
  }

  function EndsWithNewline(text: string): bool {
    text != [] && text[|text| - 1] == '\n'
  }

  function ToText(lines: seq<string>, newline: bool): string {
    L.Join(lines, '\n') + if newline then "\n" else ""
  }

  function Apply(original: string, hunks: seq<Hunk>): string {
    ToText(ApplyFrom(TextLines(original), hunks, 0), EndsWithNewline(original))
  }

  method ApplyHunks(original: string, hunks: seq<Hunk>) returns (output: string)
    ensures output == Apply(original, hunks)
  {
    var oldLines := TextLines(original);
    var result := ApplyAll(oldLines, hunks);
    output := L.Join(result, '\n');
    if EndsWithNewline(original) {
      output := output + "\n";
    } else {
      assert output + "" == output;
    }
  }

  /** The loop over hunks, and the copying of the lines behind the last one. */
  method ApplyAll(oldLines: seq<string>, hunks: seq<Hunk>) returns (result: seq<string>)
    ensures result == ApplyFrom(oldLines, hunks, 0)
  {
    result := [];
    var oldIdx: nat := 0;
    var h := 0;
    while h < |hunks|
      invariant 0 <= h <= |hunks|
      invariant result + ApplyFrom(oldLines, hunks[h..], oldIdx) == ApplyFrom(oldLines, hunks, 0)
    {
      assert hunks[h..] == [hunks[h]] + hunks[h + 1..];
      result, oldIdx := ApplyHunk(oldLines, result, oldIdx, hunks[h], hunks[h + 1..]);
      h := h + 1;
    }
    assert hunks[h..] == [];
    result, oldIdx := CopyLines(oldLines, result, oldIdx, |oldLines|);
  }

  /** One round of the loop over hunks. */
  method ApplyHunk(oldLines: seq<string>, result: seq<string>, from: nat, hunk: Hunk, ghost later: seq<Hunk>)
    returns (result': seq<string>, oldIdx: nat)
    ensures result' + ApplyFrom(oldLines, later, oldIdx) == result + ApplyFrom(oldLines, [hunk] + later, from)
  {
    result', oldIdx := ApplyOne(oldLines, result, from, hunk);
    ApplyFromCons(oldLines, hunk, later, from);
    Assoc(result, HunkOut(oldLines, hunk, from), ApplyFrom(oldLines, later, oldIdx));
  }

  method ApplyOne(oldLines: seq<string>, result: seq<string>, from: nat, hunk: Hunk)
    returns (result': seq<string>, oldIdx: nat)
    ensures result' == result + HunkOut(oldLines, hunk, from)
    ensures oldIdx == HunkEnd(oldLines, hunk, from)
  {
    var hunkStart := if hunk.oldStart == 0 then 0 else hunk.oldStart - 1;
    var copied, start, consumed;
    copied, start := CopyLines(oldLines, result, from, hunkStart);
    assert start == BodyStart(oldLines, hunk, from);
    result', oldIdx, consumed := ApplyBody(oldLines, copied, start, hunk.lines);
    Assoc(result, Copied(oldLines, from, hunkStart), BodyOut(oldLines, start, hunk.lines));
    oldIdx := SkipLines(oldLines, oldIdx, consumed, hunk.oldCount);
  }

  /** The loop over the old lines a hunk counts but does not name. */
  method SkipLines(oldLines: seq<string>, from: nat, named: nat, counted: nat) returns (oldIdx: nat)
    ensures oldIdx == if named < counted && from < |oldLines| then Min(from + (counted - named), |oldLines|) else from
  {
    oldIdx := from;
    var consumed := named;
    while consumed < counted && oldIdx < |oldLines|
      invariant oldIdx - from == consumed - named >= 0
      invariant oldIdx > from ==> consumed <= counted && oldIdx <= |oldLines|
    {
      oldIdx := oldIdx + 1;
      consumed := consumed + 1;
    }
  }

  /** The copying loops: before a hunk and behind the last one. */
  method CopyLines(oldLines: seq<string>, result: seq<string>, from: nat, to: nat)
    returns (result': seq<string>, oldIdx: nat)
    ensures result' == result + Copied(oldLines, from, to)
    ensures oldIdx == Max(from, Min(to, |oldLines|))
  {
    result', oldIdx := result, from;
    while oldIdx < to && oldIdx < |oldLines|
      invariant from <= oldIdx && (oldIdx <= Min(to, |oldLines|) || oldIdx == from)
      invariant result' == result + Copied(oldLines, from, oldIdx)
    {
      result' := result' + [oldLines[oldIdx]];
      oldIdx := oldIdx + 1;
    }
  }

  /** The loop over the lines of one hunk. */
  method ApplyBody(oldLines: seq<string>, result: seq<string>, from: nat, lines: seq<DiffLine>)
    returns (result': seq<string>, oldIdx: nat, consumed: nat)
    ensures result' == result + BodyOut(oldLines, from, lines)
    ensures oldIdx == BodyEnd(oldLines, from, lines)
    ensures consumed == |OldOf(lines)|
  {
    result', oldIdx, consumed := result, from, 0;
    var i := 0;
    while i < |lines|
      invariant 0 <= i <= |lines|
      invariant result' + BodyOut(oldLines, oldIdx, lines[i..]) == result + BodyOut(oldLines, from, lines)
      invariant BodyEnd(oldLines, oldIdx, lines[i..]) == BodyEnd(oldLines, from, lines)
      invariant consumed + |OldOf(lines[i..])| == |OldOf(lines)|
    {
      assert lines[i..] == [lines[i]] + lines[i + 1..];
      BodyCons(oldLines, oldIdx, lines[i], lines[i + 1..]);
      Assoc(result', LineOut(oldLines, oldIdx, lines[i]),
            BodyOut(oldLines, AfterLine(oldLines, oldIdx, lines[i]), lines[i + 1..]));
      result', oldIdx, consumed := ApplyLine(oldLines, result', oldIdx, consumed, lines[i]);
      i := i + 1;
    }
  }

  /** One round of the loop over lines. */
  method ApplyLine(oldLines: seq<string>, result: seq<string>, from: nat, before: nat, line: DiffLine)
    returns (result': seq<string>, oldIdx: nat, consumed: nat)
    ensures result' == result + LineOut(oldLines, from, line)
    ensures oldIdx == AfterLine(oldLines, from, line)
    ensures consumed == before + if line.Add? then 0 else 1
  {
    result', oldIdx, consumed := result, from, before;
    match line {
      case Context(_) =>
        if oldIdx < |oldLines| {
          result' := result' + [oldLines[oldIdx]];
          oldIdx := oldIdx + 1;
        }
        consumed := consumed + 1;
      case Remove(_) =>
        oldIdx := oldIdx + 1;
        consumed := consumed + 1;
      case Add(text) =>
        result' := result' + [text];
    }
  }

  lemma {:induction false} BodyCons(orig: seq<string>, idx: nat, line: DiffLine, rest: seq<DiffLine>)
    ensures BodyOut(orig, idx, [line] + rest)
      == LineOut(orig, idx, line) + BodyOut(orig, AfterLine(orig, idx, line), rest)
    ensures BodyEnd(orig, idx, [line] + rest) == BodyEnd(orig, AfterLine(orig, idx, line), rest)
    ensures OldOf([line] + rest) == (if line.Add? then [] else [line.text]) + OldOf(rest)
  {
    assert ([line] + rest)[1..] == rest;
  }

  // ---- Edit scripts ------------------------------------------------------------------------------

  /** A stretch of unchanged lines outside any hunk, then the lines of one hunk. */
  datatype Piece = Piece(gap: seq<string>, ops: seq<DiffLine>)

  function OldLines(pieces: seq<Piece>): seq<string> {
    if pieces == [] then [] else pieces[0].gap + OldOf(pieces[0].ops) + OldLines(pieces[1..])
  }

  function NewLines(pieces: seq<Piece>): seq<string> {
    if pieces == [] then [] else pieces[0].gap + NewOf(pieces[0].ops) + NewLines(pieces[1..])
  }

  /** The hunk of a script with correct counts: it starts at its first old line, or, when it
      names none, at the line before (POSIX.1-2017, `diff`, "Diff -u or -U Output Format"). */
  function HunkOf(ops: seq<DiffLine>, before: nat): Hunk {
    var count := |OldOf(ops)|;
    Hunk(if count == 0 then before else before + 1, count, ops)
  }

  function HunksOf(pieces: seq<Piece>, before: nat): seq<Hunk> {
    if pieces == [] then []
    else
      var p := pieces[0];
      [HunkOf(p.ops, before + |p.gap|)] + HunksOf(pieces[1..], before + |p.gap| + |OldOf(p.ops)|)
  }

  predicate PureInsertion(ops: seq<DiffLine>) {
    OldOf(ops) == []
  }

  /** No hunk that only inserts touches the hunk before it. */
  predicate Apart(pieces: seq<Piece>) {
    pieces == [] || ((PureInsertion(pieces[0].ops) ==> pieces[0].gap != []) && Apart(pieces[1..]))
  }

  /** The same for a whole script, whose first hunk has none before it. */
  predicate Separated(pieces: seq<Piece>) {
    pieces == [] || Apart(pieces[1..])
  }

  /** What the applier emits for a piece: a hunk that only inserts goes in one line early. */
  function Emitted(p: Piece): seq<string> {
    if PureInsertion(p.ops) && p.gap != []
    then p.gap[..|p.gap| - 1] + NewOf(p.ops) + [p.gap[|p.gap| - 1]]
    else p.gap + NewOf(p.ops)
  }

  function EmittedAll(pieces: seq<Piece>): seq<string> {
    if pieces == [] then [] else Emitted(pieces[0]) + EmittedAll(pieces[1..])
  }

  lemma {:induction false} BodyOfScript(orig: seq<string>, idx: nat, next: nat, ops: seq<DiffLine>)
    requires next == idx + |OldOf(ops)| <= |orig| && orig[idx..next] == OldOf(ops)
    ensures BodyOut(orig, idx, ops) == NewOf(ops)
    ensures BodyEnd(orig, idx, ops) == next
    decreases |ops|
  {
    if ops != [] {
      if !ops[0].Add? {
        HeadOfSlice(orig, idx, next, ops[0].text, OldOf(ops[1..]));
      }
      BodyOfScript(orig, AfterLine(orig, idx, ops[0]), next, ops[1..]);
    }
  }

  lemma {:induction false} HeadOfSlice<T>(xs: seq<T>, i: nat, next: nat, head: T, tail: seq<T>)
    requires next == i + 1 + |tail| <= |xs| && xs[i..next] == [head] + tail
    ensures xs[i] == head && xs[i + 1..next] == tail
  {
    var slice := xs[i..next];
    assert xs[i] == slice[0];
    assert xs[i + 1..next] == slice[1..];
  }

  /** A line still to be copied comes out first when no hunk starts before it. */
  lemma {:induction false} PendingLine(orig: seq<string>, hunks: seq<Hunk>, idx: nat)
    requires idx < |orig| && (hunks != [] ==> idx + 1 <= HunkStart(hunks[0]))
    ensures ApplyFrom(orig, hunks, idx) == [orig[idx]] + ApplyFrom(orig, hunks, idx + 1)
  {
    if hunks == [] {
      CopiedFirst(orig, idx, |orig|);
    } else {
      var h := hunks[0];
      PendingInHunk(orig, h, idx);
      Assoc([orig[idx]], HunkOut(orig, h, idx + 1), ApplyFrom(orig, hunks[1..], HunkEnd(orig, h, idx)));
    }
  }

  lemma {:induction false} PendingInHunk(orig: seq<string>, h: Hunk, idx: nat)
    requires idx < |orig| && idx + 1 <= HunkStart(h)
    ensures HunkEnd(orig, h, idx) == HunkEnd(orig, h, idx + 1)
    ensures HunkOut(orig, h, idx) == [orig[idx]] + HunkOut(orig, h, idx + 1)
  {
    CopiedFirst(orig, idx, HunkStart(h));
    var start := BodyStart(orig, h, idx);
    assert start == BodyStart(orig, h, idx + 1);
    Assoc([orig[idx]], Copied(orig, idx + 1, HunkStart(h)), BodyOut(orig, start, h.lines));
  }

  /** The applier computes `EmittedAll` on every script whose insertions are separated. */
  lemma {:induction false} ApplyEmits(orig: seq<string>, pieces: seq<Piece>, tail: seq<string>, idx: nat)
    requires idx <= |orig| && orig[idx..] == OldLines(pieces) + tail
    requires Separated(pieces)
    requires pieces != [] && PureInsertion(pieces[0].ops) && pieces[0].gap == [] ==> idx == 0
    ensures ApplyFrom(orig, HunksOf(pieces, idx), idx) == EmittedAll(pieces) + tail
    decreases |pieces|
  {
    if pieces == [] {
      assert [] + tail == tail;
      NothingToEmit(orig, tail, idx);
    } else {
      var p, rest := pieces[0], pieces[1..];
      var first := idx + |p.gap|;
      var next := first + |OldOf(p.ops)|;
      PieceSlices(orig, pieces, tail, idx, first, next);
      ApplyEmits(orig, rest, tail, next);
      LaterHunksStartLater(rest, next);
      UnfoldPieces(pieces, idx, first, next);
      FirstPiece(orig, p, idx, first, next, HunksOf(rest, next));
      Assoc(Emitted(p), EmittedAll(rest), tail);
    }
  }

  lemma {:induction false} NothingToEmit(orig: seq<string>, tail: seq<string>, idx: nat)
    requires idx <= |orig| && orig[idx..] == tail
    ensures ApplyFrom(orig, [], idx) == tail
  {
  }

  lemma {:induction false} UnfoldPieces(pieces: seq<Piece>, idx: nat, first: nat, next: nat)
    requires pieces != [] && first == idx + |pieces[0].gap| && next == first + |OldOf(pieces[0].ops)|
    ensures HunksOf(pieces, idx) == [HunkOf(pieces[0].ops, first)] + HunksOf(pieces[1..], next)
    ensures EmittedAll(pieces) == Emitted(pieces[0]) + EmittedAll(pieces[1..])
  {
  }

  /** `gap` and `named` stand in the old file from `idx`, next to each other. */
  predicate Lies(orig: seq<string>, gap: seq<string>, named: seq<string>, idx: nat, first: nat, next: nat) {
    && first == idx + |gap| && next == first + |named| && next <= |orig|
    && orig[idx..first] == gap
    && orig[first..next] == named
  }

  lemma {:induction false} PieceSlices(orig: seq<string>, pieces: seq<Piece>, tail: seq<string>, idx: nat,
        first: nat, next: nat)
    requires pieces != [] && idx <= |orig| && orig[idx..] == OldLines(pieces) + tail
    requires first == idx + |pieces[0].gap| && next == first + |OldOf(pieces[0].ops)|
    ensures Lies(orig, pieces[0].gap, OldOf(pieces[0].ops), idx, first, next)
    ensures orig[next..] == OldLines(pieces[1..]) + tail
  {
    var p := pieces[0];
    Assoc(p.gap + OldOf(p.ops), OldLines(pieces[1..]), tail);
    SliceParts(orig, idx, first, next, p.gap, OldOf(p.ops), OldLines(pieces[1..]) + tail);
  }

  lemma {:induction false} SliceParts(xs: seq<string>, idx: nat, first: nat, next: nat, a: seq<string>,
        b: seq<string>, c: seq<string>)
    requires idx <= |xs| && xs[idx..] == a + b + c && first == idx + |a| && next == first + |b|
    ensures Lies(xs, a, b, idx, first, next)
    ensures xs[next..] == c
  {
    assert xs[idx..first] == xs[idx..][..|a|];
    assert xs[first..next] == xs[idx..][|a|..|a| + |b|];
    assert xs[next..] == xs[idx..][|a| + |b|..];
  }

  lemma {:induction false} LaterHunksStartLater(pieces: seq<Piece>, before: nat)
    requires pieces != [] && PureInsertion(pieces[0].ops) ==> pieces[0].gap != []
    ensures HunksOf(pieces, before) != [] ==> before <= HunkStart(HunksOf(pieces, before)[0])
  {
  }

  lemma {:induction false} FirstPiece(orig: seq<string>, p: Piece, idx: nat, first: nat, next: nat, later: seq<Hunk>)
    requires Lies(orig, p.gap, OldOf(p.ops), idx, first, next)
    requires PureInsertion(p.ops) && p.gap == [] ==> idx == 0
    requires later != [] ==> next <= HunkStart(later[0])
    ensures ApplyFrom(orig, [HunkOf(p.ops, first)] + later, idx) == Emitted(p) + ApplyFrom(orig, later, next)
  {
    if PureInsertion(p.ops) && p.gap != [] {
      assert next == first && first - 1 + 1 == first;
      EarlyInsertion(orig, p, idx, first, first - 1, later);
    } else {
      OrdinaryHunk(orig, p, idx, first, next, later);
    }
  }

  lemma {:induction false} OrdinaryHunk(orig: seq<string>, p: Piece, idx: nat, first: nat, next: nat, later: seq<Hunk>)
    requires Lies(orig, p.gap, OldOf(p.ops), idx, first, next)
    requires OldOf(p.ops) != [] || (p.gap == [] && idx == 0)
    ensures ApplyFrom(orig, [HunkOf(p.ops, first)] + later, idx)
      == p.gap + NewOf(p.ops) + ApplyFrom(orig, later, next)
  {
    var h := HunkOf(p.ops, first);
    assert HunkStart(h) == first;
    assert Copied(orig, idx, first) == p.gap;
    BodyOfScript(orig, first, next, p.ops);
    assert BodyStart(orig, h, idx) == first;
    ApplyFromCons(orig, h, later, idx);
  }

  lemma {:induction false} EarlyInsertion(orig: seq<string>, p: Piece, idx: nat, first: nat, last: nat,
        later: seq<Hunk>)
    requires PureInsertion(p.ops) && p.gap != []
    requires first == last + 1 == idx + |p.gap| <= |orig| && orig[idx..first] == p.gap
    requires later != [] ==> first <= HunkStart(later[0])
    ensures ApplyFrom(orig, [HunkOf(p.ops, first)] + later, idx) == Emitted(p) + ApplyFrom(orig, later, first)
  {
    GapEnds(orig, idx, p.gap, last);
    InsertEarly(orig, HunkOf(p.ops, first), idx, last, p.gap[..|p.gap| - 1], later);
  }

  lemma {:induction false} GapEnds(orig: seq<string>, idx: nat, gap: seq<string>, last: nat)
    requires gap != [] && last == idx + |gap| - 1 < |orig| && orig[idx..last + 1] == gap
    ensures orig[idx..last] == gap[..|gap| - 1]
    ensures orig[last] == gap[|gap| - 1]
  {
    assert orig[idx..last] == orig[idx..last + 1][..|gap| - 1];
    assert orig[last] == orig[idx..last + 1][|gap| - 1];
  }

  lemma {:induction false} InsertEarly(orig: seq<string>, h: Hunk, idx: nat, last: nat, front: seq<string>,
        later: seq<Hunk>)
    requires idx <= last < |orig| && orig[idx..last] == front
    requires OldOf(h.lines) == [] && h.oldCount == 0 && h.oldStart == last + 1
    requires later != [] ==> last + 1 <= HunkStart(later[0])
    ensures ApplyFrom(orig, [h] + later, idx)
      == front + NewOf(h.lines) + [orig[last]] + ApplyFrom(orig, later, last + 1)
  {
    EarlyHunk(orig, h, idx, last, front);
    PendingLine(orig, later, last);
    ApplyFromCons(orig, h, later, idx);
    Assoc(front + NewOf(h.lines), [orig[last]], ApplyFrom(orig, later, last + 1));
  }

  lemma {:induction false} EarlyHunk(orig: seq<string>, h: Hunk, idx: nat, last: nat, front: seq<string>)
    requires idx <= last < |orig| && orig[idx..last] == front
    requires OldOf(h.lines) == [] && h.oldCount == 0 && h.oldStart == last + 1
    ensures HunkOut(orig, h, idx) == front + NewOf(h.lines)
    ensures HunkEnd(orig, h, idx) == last
  {
    assert orig[last..last] == OldOf(h.lines);
    BodyOfScript(orig, last, last, h.lines);
    assert BodyStart(orig, h, idx) == last;
  }

  /** An insertion that comes out right although it goes in early: it repeats the line before. */
  predicate HarmlessInsertion(p: Piece) {
    PureInsertion(p.ops) && p.gap != [] ==>
      forall i | 0 <= i < |NewOf(p.ops)| :: NewOf(p.ops)[i] == p.gap[|p.gap| - 1]
  }

  predicate AllHarmless(pieces: seq<Piece>) {
    forall i | 0 <= i < |pieces| :: HarmlessInsertion(pieces[i])
  }

  lemma {:induction false} RotationFixed(x: string, xs: seq<string>, k: nat)
    requires [x] + xs == xs + [x] && k < |xs|
    ensures xs[k] == x
  {
    assert ([x] + xs)[k] == (xs + [x])[k];
    if k > 0 {
      RotationFixed(x, xs, k - 1);
    }
  }

  lemma {:induction false} EmittedRight(p: Piece)
    ensures |Emitted(p)| == |p.gap + NewOf(p.ops)|
    ensures Emitted(p) == p.gap + NewOf(p.ops) <==> HarmlessInsertion(p)
  {
    if PureInsertion(p.ops) && p.gap != [] {
      var n, last, ins := |p.gap| - 1, p.gap[|p.gap| - 1], NewOf(p.ops);
      assert p.gap == p.gap[..n] + [last];
      if Emitted(p) == p.gap + ins {
        assert ins + [last] == Emitted(p)[n..] == (p.gap + ins)[n..] == [last] + ins;
        forall k | 0 <= k < |ins| ensures ins[k] == last {
          RotationFixed(last, ins, k);
        }
      }
      if HarmlessInsertion(p) {
        assert ins + [last] == [last] + ins;
        assert Emitted(p) == p.gap[..n] + (ins + [last]);
      }
    }
  }

  lemma {:induction false} EmittedAllRight(pieces: seq<Piece>)
    ensures |EmittedAll(pieces)| == |NewLines(pieces)|
    ensures EmittedAll(pieces) == NewLines(pieces) <==> AllHarmless(pieces)
  {
    if pieces != [] {
      var p, rest := pieces[0], pieces[1..];
      var right := p.gap + NewOf(p.ops);
      EmittedRight(p);
      EmittedAllRight(rest);
      AppendEqual(Emitted(p), EmittedAll(rest), right, NewLines(rest));
      AllHarmlessCons(p, rest);
      assert pieces == [p] + rest;
    }
  }

  lemma {:induction false} AllHarmlessCons(p: Piece, rest: seq<Piece>)
    ensures AllHarmless([p] + rest) <==> HarmlessInsertion(p) && AllHarmless(rest)
  {
    var pieces := [p] + rest;
    assert pieces[0] == p;
    forall i | 0 <= i < |rest| ensures rest[i] == pieces[i + 1] {
    }
  }

  lemma {:induction false} AppendEqual(a: seq<string>, b: seq<string>, c: seq<string>, d: seq<string>)
    requires |a| == |c|
    ensures a + b == c + d <==> a == c && b == d
  {
    assert (a + b)[..|a|] == a && (a + b)[|a|..] == b;
    assert (c + d)[..|a|] == c && (c + d)[|a|..] == d;
  }

  // ---- Touching hunks ----------------------------------------------------------------------------

  /** A hunk that only inserts, directly behind another, goes in where that one ended: the two act as
      one. */
  function Glue(p: Piece, rest: seq<Piece>): seq<Piece> {
    if rest != [] && rest[0].gap == [] && PureInsertion(rest[0].ops)
    then [Piece(p.gap, p.ops + rest[0].ops)] + rest[1..]
    else [p] + rest
  }

  function Merged(pieces: seq<Piece>): seq<Piece> {
    if pieces == [] then [] else Glue(pieces[0], Merged(pieces[1..]))
  }

  lemma {:induction false} MergedIsSeparated(pieces: seq<Piece>)
    ensures Separated(Merged(pieces))
  {
    if pieces != [] {
      MergedIsSeparated(pieces[1..]);
      var rest := Merged(pieces[1..]);
      assert ([pieces[0]] + rest)[1..] == rest;
    }
  }

  lemma {:induction false} SeparatedIsMerged(pieces: seq<Piece>)
    requires Separated(pieces)
    ensures Merged(pieces) == pieces
  {
    if pieces != [] {
      SeparatedIsMerged(pieces[1..]);
    }
  }

  lemma {:induction false} BodyAppend(orig: seq<string>, idx: nat, a: seq<DiffLine>, b: seq<DiffLine>)
    ensures BodyOut(orig, idx, a + b) == BodyOut(orig, idx, a) + BodyOut(orig, BodyEnd(orig, idx, a), b)
    ensures BodyEnd(orig, idx, a + b) == BodyEnd(orig, BodyEnd(orig, idx, a), b)
    decreases |a|
  {
    if a == [] {
      assert a + b == b;
    } else {
      assert (a + b)[1..] == a[1..] + b;
      BodyAppend(orig, AfterLine(orig, idx, a[0]), a[1..], b);
    }
  }

  lemma {:induction false} OldOfAppend(a: seq<DiffLine>, b: seq<DiffLine>)
    ensures OldOf(a + b) == OldOf(a) + OldOf(b)
  {
    if a == [] {
      assert a + b == b;
    } else {
      assert (a + b)[1..] == a[1..] + b;
      OldOfAppend(a[1..], b);
    }
  }

  lemma {:induction false} NewOfAppend(a: seq<DiffLine>, b: seq<DiffLine>)
    ensures NewOf(a + b) == NewOf(a) + NewOf(b)
  {
    if a == [] {
      assert a + b == b;
    } else {
      assert (a + b)[1..] == a[1..] + b;
      NewOfAppend(a[1..], b);
    }
  }

  lemma {:induction false} MergedLines(pieces: seq<Piece>)
    ensures OldLines(Merged(pieces)) == OldLines(pieces)
    ensures NewLines(Merged(pieces)) == NewLines(pieces)
  {
    if pieces != [] {
      MergedLines(pieces[1..]);
      GluedLines(pieces[0], Merged(pieces[1..]));
    }
  }

  lemma {:induction false} GluedLines(p: Piece, rest: seq<Piece>)
    ensures OldLines(Glue(p, rest)) == p.gap + OldOf(p.ops) + OldLines(rest)
    ensures NewLines(Glue(p, rest)) == p.gap + NewOf(p.ops) + NewLines(rest)
  {
    if rest != [] && rest[0].gap == [] && PureInsertion(rest[0].ops) {
      GluedOne(p, rest[0], rest[1..]);
      assert rest == [rest[0]] + rest[1..];
    } else {
      LinesCons(p, rest);
    }
  }

  lemma {:induction false} LinesCons(p: Piece, rest: seq<Piece>)
    ensures OldLines([p] + rest) == p.gap + OldOf(p.ops) + OldLines(rest)
    ensures NewLines([p] + rest) == p.gap + NewOf(p.ops) + NewLines(rest)
  {
    assert ([p] + rest)[1..] == rest;
  }

  lemma {:induction false} GluedOne(p: Piece, q: Piece, rest: seq<Piece>)
    requires q.gap == [] && PureInsertion(q.ops)
    ensures
      var both := Piece(p.gap, p.ops + q.ops);
      && OldLines([both] + rest) == p.gap + OldOf(p.ops) + OldLines([q] + rest)
      && NewLines([both] + rest) == p.gap + NewOf(p.ops) + NewLines([q] + rest)
  {
    LinesCons(Piece(p.gap, p.ops + q.ops), rest);
    LinesCons(q, rest);
    OldOfAppend(p.ops, q.ops);
    NewOfAppend(p.ops, q.ops);
    assert OldOf(p.ops) + [] == OldOf(p.ops) && [] + OldLines(rest) == OldLines(rest);
    assert [] + NewOf(q.ops) + NewLines(rest) == NewOf(q.ops) + NewLines(rest);
    Assoc(p.gap, NewOf(p.ops), NewOf(q.ops));
    Assoc(p.gap + NewOf(p.ops), NewOf(q.ops), NewLines(rest));
  }

  lemma {:induction false} BodyEndCounts(orig: seq<string>, idx: nat, ops: seq<DiffLine>)
    requires idx + |OldOf(ops)| <= |orig|
    ensures BodyEnd(orig, idx, ops) == idx + |OldOf(ops)|
    decreases |ops|
  {
    if ops != [] {
      BodyEndCounts(orig, AfterLine(orig, idx, ops[0]), ops[1..]);
    }
  }

  /** A hunk with correct counts ends behind its old lines, or one line early when it only inserts. */
  lemma {:induction false} HunkEndIs(orig: seq<string>, ops: seq<DiffLine>, first: nat, idx: nat)
    requires idx <= first && first + |OldOf(ops)| <= |orig|
    ensures
      var end := HunkEnd(orig, HunkOf(ops, first), idx);
      && end == BodyEnd(orig, BodyStart(orig, HunkOf(ops, first), idx), ops)
      && end <= first + |OldOf(ops)| <= end + 1
  {
    BodyEndCounts(orig, BodyStart(orig, HunkOf(ops, first), idx), ops);
  }

  /** A hunk that only inserts, less than two lines behind the next old line, goes in right there. */
  lemma {:induction false} InsertsInPlace(orig: seq<string>, ops: seq<DiffLine>, first: nat, end: nat)
    requires PureInsertion(ops) && end <= |orig| && first <= end + 1
    ensures HunkOut(orig, HunkOf(ops, first), end) == BodyOut(orig, end, ops)
    ensures HunkEnd(orig, HunkOf(ops, first), end) == end
  {
    BodyEndCounts(orig, end, ops);
    assert BodyStart(orig, HunkOf(ops, first), end) == end && Copied(orig, end, HunkStart(HunkOf(ops, first))) == [];
    assert [] + BodyOut(orig, end, ops) == BodyOut(orig, end, ops);
  }

  /** Insertions at the end of a hunk. */
  lemma {:induction false} LongerHunk(orig: seq<string>, a: seq<DiffLine>, b: seq<DiffLine>, first: nat, idx: nat,
        end: nat)
    requires idx <= first && first + |OldOf(a)| <= |orig| && PureInsertion(b)
    requires end == HunkEnd(orig, HunkOf(a, first), idx)
    ensures HunkOut(orig, HunkOf(a + b, first), idx) == HunkOut(orig, HunkOf(a, first), idx) + BodyOut(orig, end, b)
    ensures HunkEnd(orig, HunkOf(a + b, first), idx) == end
  {
    OldOfAppend(a, b);
    var start := BodyStart(orig, HunkOf(a, first), idx);
    assert BodyStart(orig, HunkOf(a + b, first), idx) == start;
    HunkEndIs(orig, a, first, idx);
    HunkEndIs(orig, a + b, first, idx);
    BodyAppend(orig, start, a, b);
    BodyEndCounts(orig, end, b);
    Assoc(Copied(orig, idx, HunkStart(HunkOf(a, first))), BodyOut(orig, start, a), BodyOut(orig, end, b));
  }

  /** Two hunks that touch, the second only inserting, act as one. */
  lemma {:induction false} TwoAsOne(orig: seq<string>, a: seq<DiffLine>, b: seq<DiffLine>, first: nat, next: nat,
        idx: nat, later: seq<Hunk>)
    requires idx <= first && first + |OldOf(a)| == next <= |orig| && PureInsertion(b)
    ensures ApplyFrom(orig, [HunkOf(a, first)] + ([HunkOf(b, next)] + later), idx)
      == ApplyFrom(orig, [HunkOf(a + b, first)] + later, idx)
  {
    var h, k := HunkOf(a, first), HunkOf(b, next);
    var end := HunkEnd(orig, h, idx);
    HunkEndIs(orig, a, first, idx);
    InsertsInPlace(orig, b, next, end);
    LongerHunk(orig, a, b, first, idx, end);
    ApplyFromCons(orig, h, [k] + later, idx);
    ApplyFromCons(orig, k, later, end);
    ApplyFromCons(orig, HunkOf(a + b, first), later, idx);
    Assoc(HunkOut(orig, h, idx), BodyOut(orig, end, b), ApplyFrom(orig, later, end));
  }

  lemma {:induction false} GlueKeepsResult(orig: seq<string>, p: Piece, rest: seq<Piece>, idx: nat, first: nat,
        next: nat)
    requires idx <= first && first + |OldOf(p.ops)| == next <= |orig|
    ensures ApplyFrom(orig, [HunkOf(p.ops, first)] + HunksOf(rest, next), idx)
      == ApplyFrom(orig, GluedHunks(p, rest, first, next), idx)
  {
    if rest != [] && rest[0].gap == [] && PureInsertion(rest[0].ops) {
      var later := HunksOf(rest[1..], next);
      assert HunksOf(rest, next) == [HunkOf(rest[0].ops, next)] + later;
      TwoAsOne(orig, p.ops, rest[0].ops, first, next, idx, later);
    }
  }

  /** The hunks of the glued pieces, the first of which starts behind `first` lines. */
  function GluedHunks(p: Piece, rest: seq<Piece>, first: nat, next: nat): seq<Hunk> {
    if rest != [] && rest[0].gap == [] && PureInsertion(rest[0].ops)
    then [HunkOf(p.ops + rest[0].ops, first)] + HunksOf(rest[1..], next)
    else [HunkOf(p.ops, first)] + HunksOf(rest, next)
  }

  lemma {:induction false} HunksOfGlued(p: Piece, rest: seq<Piece>, before: nat, first: nat, next: nat)
    requires first == before + |p.gap| && next == first + |OldOf(p.ops)|
    ensures HunksOf(Glue(p, rest), before) == GluedHunks(p, rest, first, next)
  {
    if rest != [] && rest[0].gap == [] && PureInsertion(rest[0].ops) {
      OldOfAppend(p.ops, rest[0].ops);
      assert Glue(p, rest)[1..] == rest[1..];
    } else {
      assert Glue(p, rest)[1..] == rest;
    }
  }

  lemma {:induction false} MergedKeepsResult(orig: seq<string>, pieces: seq<Piece>, before: nat, idx: nat)
    requires idx <= before && before + |OldLines(pieces)| <= |orig|
    ensures ApplyFrom(orig, HunksOf(pieces, before), idx) == ApplyFrom(orig, HunksOf(Merged(pieces), before), idx)
    decreases |pieces|
  {
    if pieces != [] {
      var p, rest := pieces[0], Merged(pieces[1..]);
      var first := before + |p.gap|;
      var next := first + |OldOf(p.ops)|;
      var h := HunkOf(p.ops, first);
      HunkEndIs(orig, p.ops, first, idx);
      MergedKeepsResult(orig, pieces[1..], next, HunkEnd(orig, h, idx));
      UnfoldPieces(pieces, before, first, next);
      ApplyFromCons(orig, h, HunksOf(pieces[1..], next), idx);
      ApplyFromCons(orig, h, HunksOf(rest, next), idx);
      GlueKeepsResult(orig, p, rest, idx, first, next);
      HunksOfGlued(p, rest, before, first, next);
    }
  }

  // ---- The result --------------------------------------------------------------------------------

  /** Applying the hunks of an edit script yields the script's new lines exactly when, touching hunks
      taken as one, every hunk that only inserts stands at the top of the file or repeats the line
      before it. */
  lemma {:induction false} ApplyExactlyWhen(pieces: seq<Piece>, tail: seq<string>)
    ensures ApplyFrom(OldLines(pieces) + tail, HunksOf(pieces, 0), 0) == NewLines(pieces) + tail
            <==> AllHarmless(Merged(pieces))
  {
    var merged, orig := Merged(pieces), OldLines(pieces) + tail;
    MergedKeepsResult(orig, pieces, 0, 0);
    MergedLines(pieces);
    MergedIsSeparated(pieces);
    assert orig[0..] == orig;
    ApplyEmits(orig, merged, tail, 0);
    EmittedAllRight(merged);
    AppendEqual(EmittedAll(merged), tail, NewLines(pieces), tail);
  }

  /** Such a script: a line is to be inserted behind the only line, and comes out before it. */
  lemma {:induction false} InsertionGoesInEarly()
    ensures
      var pieces := [Piece(["a"], [Add("b")])];
      && HunksOf(pieces, 0) == [Hunk(1, 0, [Add("b")])] && NewLines(pieces) == ["a", "b"]
      && ApplyFrom(["a"], HunksOf(pieces, 0), 0) == ["b", "a"]
  {
  }

  /** The ordinary case: no hunk only inserts, except at the top of the file. */
  lemma {:induction false} ApplyScript(pieces: seq<Piece>, tail: seq<string>)
    requires forall i | 0 <= i < |pieces| :: PureInsertion(pieces[i].ops) ==> i == 0 && pieces[i].gap == []
    ensures ApplyFrom(OldLines(pieces) + tail, HunksOf(pieces, 0), 0) == NewLines(pieces) + tail
  {
    OrdinaryIsHarmless(pieces);
    ApplyExactlyWhen(pieces, tail);
  }

  lemma {:induction false} OrdinaryIsHarmless(pieces: seq<Piece>)
    requires forall i | 0 <= i < |pieces| :: PureInsertion(pieces[i].ops) ==> i == 0 && pieces[i].gap == []
    ensures Merged(pieces) == pieces && AllHarmless(pieces)
  {
    if pieces != [] {
      NoInsertionApart(pieces[1..]);
    }
    SeparatedIsMerged(pieces);
  }

  lemma {:induction false} NoInsertionApart(pieces: seq<Piece>)
    requires forall i | 0 <= i < |pieces| :: !PureInsertion(pieces[i].ops)
    ensures Apart(pieces)
  {
    if pieces != [] {
      NoInsertionApart(pieces[1..]);
    }
  }

  // ---- Surplus context ---------------------------------------------------------------------------

  function Contexts(texts: seq<string>): seq<DiffLine> {
    if texts == [] then [] else [Context(texts[0])] + Contexts(texts[1..])
  }

  lemma {:induction false} ContextsCopy(orig: seq<string>, idx: nat, texts: seq<string>)
    ensures BodyOut(orig, idx, Contexts(texts)) == Copied(orig, idx, idx + |texts|)
    ensures BodyEnd(orig, idx, Contexts(texts)) == Max(idx, Min(idx + |texts|, |orig|))
    decreases |texts|
  {
    if texts != [] {
      var rest := texts[1..];
      var next := AfterLine(orig, idx, Context(texts[0]));
      ContextsCopy(orig, next, rest);
      ContextsCons(orig, idx, next, texts[0], rest, |rest|);
    }
  }

  lemma {:induction false} ContextsCons(orig: seq<string>, idx: nat, next: nat, text: string, rest: seq<string>, n: nat)
    requires next == AfterLine(orig, idx, Context(text))
    requires BodyOut(orig, next, Contexts(rest)) == Copied(orig, next, next + n)
    requires BodyEnd(orig, next, Contexts(rest)) == Max(next, Min(next + n, |orig|))
    ensures BodyOut(orig, idx, [Context(text)] + Contexts(rest)) == Copied(orig, idx, idx + 1 + n)
    ensures BodyEnd(orig, idx, [Context(text)] + Contexts(rest)) == Max(idx, Min(idx + 1 + n, |orig|))
  {
    BodyCons(orig, idx, Context(text), Contexts(rest));
    CopiedStep(orig, idx, next, n);
  }

  lemma {:induction false} CopiedStep(orig: seq<string>, idx: nat, next: nat, n: nat)
    requires next == if idx < |orig| then idx + 1 else idx
    ensures Copied(orig, idx, idx + 1 + n) == Copied(orig, idx, idx + 1) + Copied(orig, next, next + n)
    ensures Max(idx, Min(idx + 1 + n, |orig|)) == Max(next, Min(next + n, |orig|))
  {
    if idx < |orig| {
      CopiedFirst(orig, idx, idx + 1 + n);
      assert Copied(orig, idx, idx + 1) == [orig[idx]];
    }
  }

  /** Context lines too many at the end of the last hunk, such as the blank line the parser finds
      between two file diffs, change nothing. */
  lemma {:induction false} SurplusContext(orig: seq<string>, hunks: seq<Hunk>, last: Hunk, texts: seq<string>, idx: nat)
    requires last.oldCount <= |OldOf(last.lines)|
    ensures ApplyFrom(orig, hunks + [last.(lines := last.lines + Contexts(texts))], idx)
            == ApplyFrom(orig, hunks + [last], idx)
    decreases |hunks|
  {
    var longer := last.(lines := last.lines + Contexts(texts));
    if hunks == [] {
      assert hunks + [longer] == [longer] + [] && hunks + [last] == [last] + [];
      SurplusInLast(orig, last, texts, idx);
    } else {
      assert hunks + [last] == [hunks[0]] + (hunks[1..] + [last]);
      assert hunks + [longer] == [hunks[0]] + (hunks[1..] + [longer]);
      ApplyFromCons(orig, hunks[0], hunks[1..] + [last], idx);
      ApplyFromCons(orig, hunks[0], hunks[1..] + [longer], idx);
      SurplusContext(orig, hunks[1..], last, texts, HunkEnd(orig, hunks[0], idx));
    }
  }

  lemma {:induction false} SurplusInLast(orig: seq<string>, last: Hunk, texts: seq<string>, idx: nat)
    requires last.oldCount <= |OldOf(last.lines)|
    ensures ApplyFrom(orig, [last.(lines := last.lines + Contexts(texts))] + [], idx) == ApplyFrom(orig, [last] + [], idx)
  {
    var longer := last.(lines := last.lines + Contexts(texts));
    var end := HunkEnd(orig, last, idx);
    SurplusInHunk(orig, last, longer, texts, idx, end);
    LongerLast(orig, last, longer, idx, end + |texts|);
  }

  /** A last hunk that only copies more of what would be copied anyway. */
  lemma {:induction false} LongerLast(orig: seq<string>, last: Hunk, longer: Hunk, idx: nat, to: nat)
    requires HunkEnd(orig, last, idx) <= to
    requires HunkOut(orig, longer, idx) == HunkOut(orig, last, idx) + Copied(orig, HunkEnd(orig, last, idx), to)
    requires HunkEnd(orig, longer, idx) == Max(HunkEnd(orig, last, idx), Min(to, |orig|))
    ensures ApplyFrom(orig, [longer] + [], idx) == ApplyFrom(orig, [last] + [], idx)
  {
    var end, end2 := HunkEnd(orig, last, idx), HunkEnd(orig, longer, idx);
    ApplyLast(orig, longer, idx);
    ApplyLast(orig, last, idx);
    CopiedTwice(orig, end, to);
    Assoc(HunkOut(orig, last, idx), Copied(orig, end, to), Copied(orig, end2, |orig|));
  }

  lemma {:induction false} ApplyLast(orig: seq<string>, h: Hunk, idx: nat)
    ensures ApplyFrom(orig, [h] + [], idx) == HunkOut(orig, h, idx) + Copied(orig, HunkEnd(orig, h, idx), |orig|)
  {
    ApplyFromCons(orig, h, [], idx);
  }

  lemma {:induction false} SurplusInHunk(orig: seq<string>, last: Hunk, longer: Hunk, texts: seq<string>, idx: nat,
        end: nat)
    requires last.oldCount <= |OldOf(last.lines)| && longer == last.(lines := last.lines + Contexts(texts))
    requires end == HunkEnd(orig, last, idx)
    ensures HunkOut(orig, longer, idx) == HunkOut(orig, last, idx) + Copied(orig, end, end + |texts|)
    ensures HunkEnd(orig, longer, idx) == Max(end, Min(end + |texts|, |orig|))
  {
    var start := BodyStart(orig, last, idx);
    assert BodyStart(orig, longer, idx) == start;
    assert end == BodyEnd(orig, start, last.lines);
    BodyAppend(orig, start, last.lines, Contexts(texts));
    OldOfAppend(last.lines, Contexts(texts));
    ContextsCopy(orig, end, texts);
    Assoc(Copied(orig, idx, HunkStart(last)), BodyOut(orig, start, last.lines), Copied(orig, end, end + |texts|));
  }

  lemma {:induction false} CopiedTwice(orig: seq<string>, from: nat, to: nat)
    requires from <= to
    ensures Copied(orig, from, |orig|) == Copied(orig, from, to) + Copied(orig, Max(from, Min(to, |orig|)), |orig|)
  {
  }

  // ---- Whole texts -------------------------------------------------------------------------------

  /** The number of line ends written as carriage return and line feed. */
  function CrLfCount(s: string): nat {
    if |s| < 2 then 0
    else (if s[0] == '\r' && s[1] == '\n' then 1 else 0) + CrLfCount(s[1..])
  }

  lemma {:induction false} CrLfSplit(s: string, k: nat)
    requires k < |s| && s[k] == '\n' && '\n' !in s[..k]
    ensures CrLfCount(s) == (if k > 0 && s[k - 1] == '\r' then 1 else 0) + CrLfCount(s[k + 1..])
  {
    if k == 0 {
      if |s| >= 2 {
        assert s[1..] == s[k + 1..];
      }
    } else {
      assert s[1..][..k - 1] == s[..k][1..];
      CrLfSplit(s[1..], k - 1);
      assert s[1..][k..] == s[k + 1..];
      assert k >= 2 ==> s[1] == s[..k][1];
    }
  }

  lemma {:induction false} CrLfNone(s: string)
    requires '\n' !in s
    ensures CrLfCount(s) == 0
  {
    if |s| >= 2 {
      assert s[1] in s;
      CrLfNone(s[1..]);
    }
  }

  /** Cutting a text into lines and joining them again loses one character per CRLF. */
  lemma {:induction false} RejoinedLines(s: string)
    ensures |ToText(TextLines(s), EndsWithNewline(s))| == |s| - CrLfCount(s)
    ensures CrLfCount(s) == 0 ==> ToText(TextLines(s), EndsWithNewline(s)) == s
    ensures s != [] ==> TextLines(s) != []
    decreases |s|
  {
    var k := L.IndexOf(s, '\n');
    if s != [] && k == |s| {
      CrLfNone(s);
    } else if s != [] {
      RejoinedLines(s[k + 1..]);
      RejoinFirst(s, k, s[..k], s[k + 1..]);
    }
  }

  lemma {:induction false} RejoinFirst(s: string, k: nat, front: string, rest: string)
    requires k == L.IndexOf(s, '\n') < |s| && front == s[..k] && rest == s[k + 1..]
    requires |ToText(TextLines(rest), EndsWithNewline(rest))| == |rest| - CrLfCount(rest)
    requires CrLfCount(rest) == 0 ==> ToText(TextLines(rest), EndsWithNewline(rest)) == rest
    requires rest != [] ==> TextLines(rest) != []
    ensures |ToText(TextLines(s), EndsWithNewline(s))| == |s| - CrLfCount(s)
    ensures CrLfCount(s) == 0 ==> ToText(TextLines(s), EndsWithNewline(s)) == s
    ensures TextLines(s) != []
  {
    var line := L.StripLast(front, '\r');
    CrLfSplit(s, k);
    L.LinesUnfold(s, '\n', '\r', k);
    FirstLineText(line, TextLines(rest), EndsWithNewline(rest), EndsWithNewline(s));
    LineBack(s, k, line, rest, ToText(TextLines(rest), EndsWithNewline(rest)), CrLfCount(rest));
  }

  lemma {:induction false} LineBack(s: string, k: nat, line: string, rest: string, back: string, lost: nat)
    requires k < |s| && s[k] == '\n' && line == L.StripLast(s[..k], '\r') && rest == s[k + 1..]
    requires |back| == |rest| - lost && (lost == 0 ==> back == rest)
    ensures
      var more := if k > 0 && s[k - 1] == '\r' then 1 else 0;
      && |line + ['\n'] + back| == |s| - (more + lost)
      && (more + lost == 0 ==> line + ['\n'] + back == s)
  {
    assert s == s[..k] + [s[k]] + s[k + 1..];
  }

  lemma {:induction false} FirstLineText(line: string, lines: seq<string>, restNewline: bool, newline: bool)
    requires if lines == [] then newline && !restNewline else newline == restNewline
    ensures ToText([line] + lines, newline) == line + ['\n'] + ToText(lines, restNewline)
  {
    if lines == [] {
      assert [line] + lines == [line];
    } else {
      L.JoinCons(line, lines, '\n');
      Assoc(line + ['\n'], L.Join(lines, '\n'), if newline then "\n" else "");
    }
  }

  /** An empty hunk list leaves a text alone exactly when it has no CRLF line end. */
  lemma {:induction false} IdentityExactlyWhen(text: string)
    ensures Apply(text, []) == text <==> CrLfCount(text) == 0
  {
    RejoinedLines(text);
    var orig := TextLines(text);
    assert Copied(orig, 0, |orig|) == orig;
  }

  /** Such a text. */
  lemma {:induction false} CrLfIsChanged()
    ensures Apply("a\r\n", []) == "a\n"
  {
  }

  /** The patched text reads as the new lines exactly when its last line can be seen: an emptied
      file keeps one line feed, and an empty last line without a line feed is lost. */
  lemma {:induction false} PatchedTextExactlyWhen(lines: seq<string>, newline: bool)
    requires L.AreLines(lines, '\n', '\r')
    ensures TextLines(ToText(lines, newline)) == lines
            <==> if newline then lines != [] else lines == [] || lines[|lines| - 1] != []
  {
    if newline && lines != [] {
      L.LinesOfTerminated(lines, '\n', '\r');
    } else if newline {
      assert TextLines("\n") != [];
    } else if lines != [] && lines[|lines| - 1] != [] {
      L.LinesOfUnterminated(lines, '\n', '\r');
      assert L.Join(lines, '\n') + "" == L.Join(lines, '\n');
    } else if lines != [] {
      LastLineLost(lines);
      assert L.Join(lines, '\n') + "" == L.Join(lines, '\n');
    }
  }

  lemma {:induction false} LastLineLost(lines: seq<string>)
    requires L.AreLines(lines, '\n', '\r') && lines != [] && lines[|lines| - 1] == []
    ensures |TextLines(L.Join(lines, '\n'))| < |lines|
  {
    if |lines| > 1 {
      var front := lines[..|lines| - 1];
      assert lines == front + [[]];
      L.JoinSnoc(front, [], '\n');
      assert L.Join(lines, '\n') == L.Join(front, '\n') + ['\n'];
      assert L.AreLines(front, '\n', '\r');
      L.LinesOfTerminated(front, '\n', '\r');
    }
  }
}

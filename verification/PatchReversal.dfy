/** Undoing a patch: applying the reversed hunks of an edit script to whatever the applier made of the
    script (crates/rustykrab-tools/src/apply_patch.rs). */
module PatchReversal {
  import opened ApplyPatch
  import opened Options
  import opened Seqs

  function Reversed(ops: seq<DiffLine>): seq<DiffLine> {
    if ops == [] then []
    else
      var op := match ops[0]
        case Context(t) => Context(t)
        case Add(t) => Remove(t)
        case Remove(t) => Add(t);
      [op] + Reversed(ops[1..])
  }

  function ReversedPieces(pieces: seq<Piece>): (r: seq<Piece>)
    ensures |r| == |pieces|
  {
    if pieces == [] then []
    else [Piece(pieces[0].gap, Reversed(pieces[0].ops))] + ReversedPieces(pieces[1..])
  }

  lemma {:induction false} ReversedOps(ops: seq<DiffLine>)
    ensures OldOf(Reversed(ops)) == NewOf(ops) && NewOf(Reversed(ops)) == OldOf(ops)
  {
    if ops != [] {
      ReversedOps(ops[1..]);
    }
  }

  lemma {:induction false} ReversedLines(pieces: seq<Piece>)
    ensures OldLines(ReversedPieces(pieces)) == NewLines(pieces)
    ensures NewLines(ReversedPieces(pieces)) == OldLines(pieces)
  {
    if pieces != [] {
      ReversedOps(pieces[0].ops);
      ReversedLines(pieces[1..]);
    }
  }

  lemma {:induction false} ReversedPieceAt(pieces: seq<Piece>, i: nat)
    requires i < |pieces|
    ensures ReversedPieces(pieces)[i] == Piece(pieces[i].gap, Reversed(pieces[i].ops))
  {
    if i > 0 {
      ReversedPieceAt(pieces[1..], i - 1);
    }
  }

  // ---- A walk over a script ----------------------------------------------------------------------

  /** The script with the first line of its first gap already passed. */
  function DropLine(pieces: seq<Piece>): seq<Piece>
    requires pieces != [] && pieces[0].gap != []
  {
    [Piece(pieces[0].gap[1..], pieces[0].ops)] + pieces[1..]
  }

  function FirstGap(pieces: seq<Piece>): nat {
    if pieces == [] then 0 else |pieces[0].gap|
  }

  /** What the applier makes of `orig` behind the first `pos` lines of a script, line by line: the last
      line passed, if it is still `pending`, comes out before the next line or old line, and behind an
      insertion. */
  function Walk(orig: seq<string>, pieces: seq<Piece>, pos: nat, pending: nat): seq<string>
    requires pending <= pos
    decreases |pieces|, FirstGap(pieces)
  {
    if pieces == [] then Copied(orig, pos - pending, |orig|)
    else
      var ops, rest := pieces[0].ops, pieces[1..];
      if pieces[0].gap != [] then Copied(orig, pos - pending, pos) + Walk(orig, DropLine(pieces), pos + 1, 1)
      else if PureInsertion(ops) then NewOf(ops) + Walk(orig, rest, pos, pending)
      else Copied(orig, pos - pending, pos) + BodyOut(orig, pos, ops) + Walk(orig, rest, pos + |OldOf(ops)|, 0)
  }

  lemma {:induction false} DropLineHunks(pieces: seq<Piece>, pos: nat)
    requires pieces != [] && pieces[0].gap != []
    ensures HunksOf(DropLine(pieces), pos + 1) == HunksOf(pieces, pos)
    ensures HunksOf(pieces, pos) != [] && pos <= HunkStart(HunksOf(pieces, pos)[0])
  {
    var p, later := pieces[0], DropLine(pieces);
    var first, next := pos + |p.gap|, pos + |p.gap| + |OldOf(p.ops)|;
    assert later[0].ops == p.ops && later[1..] == pieces[1..];
    UnfoldPieces(pieces, pos, first, next);
    UnfoldPieces(later, pos + 1, first, next);
    assert HunksOf(pieces, pos)[0] == HunkOf(p.ops, first);
  }

  lemma {:induction false} DropLineOld(pieces: seq<Piece>)
    requires pieces != [] && pieces[0].gap != []
    ensures OldLines(pieces) == [pieces[0].gap[0]] + OldLines(DropLine(pieces))
  {
    var p, rest := pieces[0], pieces[1..];
    var line, gap, old_ := p.gap[0], p.gap[1..], OldOf(p.ops);
    LinesCons(p, rest);
    LinesCons(Piece(gap, p.ops), rest);
    assert pieces == [p] + rest && p.gap == [line] + gap;
    Assoc([line], gap, old_);
    Assoc([line], gap + old_, OldLines(rest));
  }

  lemma {:induction false} ApplyIsWalk(orig: seq<string>, pieces: seq<Piece>, hunks: seq<Hunk>, pos: nat,
        pending: nat, idx: nat)
    requires pending <= 1 && pos == idx + pending && pos + |OldLines(pieces)| <= |orig|
    requires hunks == HunksOf(pieces, pos)
    ensures ApplyFrom(orig, hunks, idx) == Walk(orig, pieces, pos, pending)
    decreases |pieces|, FirstGap(pieces), 1
  {
    if pieces != [] {
      if pieces[0].gap != [] {
        DropLineHunks(pieces, pos);
        DropLineOld(pieces);
        ApplyIsWalk(orig, DropLine(pieces), hunks, pos + 1, 1, pos);
        LineIsWalk(orig, pieces, hunks, pos, pending, idx);
      } else {
        UnfoldPieces(pieces, pos, pos, pos + |OldOf(pieces[0].ops)|);
        FirstHunkIsWalk(orig, pieces, hunks, pos, pending, idx, pos + |OldOf(pieces[0].ops)|);
      }
    }
  }

  lemma {:induction false} LineIsWalk(orig: seq<string>, pieces: seq<Piece>, hunks: seq<Hunk>, pos: nat,
        pending: nat, idx: nat)
    requires pending <= 1 && pos == idx + pending <= |orig| && pieces != [] && pieces[0].gap != []
    requires hunks != [] && pos <= HunkStart(hunks[0])
    requires ApplyFrom(orig, hunks, pos) == Walk(orig, DropLine(pieces), pos + 1, 1)
    ensures ApplyFrom(orig, hunks, idx) == Walk(orig, pieces, pos, pending)
  {
    PassPending(orig, hunks, pos, pending, idx);
    WalkLine(orig, pieces, pos, pending, idx);
  }

  lemma {:induction false} FirstHunkIsWalk(orig: seq<string>, pieces: seq<Piece>, hunks: seq<Hunk>, pos: nat,
        pending: nat, idx: nat, next: nat)
    requires pending <= 1 && pos == idx + pending && pieces != [] && pieces[0].gap == []
    requires next == pos + |OldOf(pieces[0].ops)| && next + |OldLines(pieces[1..])| <= |orig|
    requires hunks == [HunkOf(pieces[0].ops, pos)] + HunksOf(pieces[1..], next)
    ensures ApplyFrom(orig, hunks, idx) == Walk(orig, pieces, pos, pending)
    decreases |pieces|, FirstGap(pieces), 0
  {
    var ops, rest := pieces[0].ops, pieces[1..];
    var later := HunksOf(rest, next);
    if PureInsertion(ops) {
      ApplyIsWalk(orig, rest, later, pos, pending, idx);
      InsertionHunk(orig, ops, hunks, pos, idx, later);
      WalkInsertion(orig, pieces, pos, pending);
    } else {
      ApplyIsWalk(orig, rest, later, next, 0, next);
      NamingHunk(orig, ops, hunks, pos, idx, next, later);
      WalkNaming(orig, pieces, pos, pending, idx, next);
    }
  }

  lemma {:induction false} WalkLine(orig: seq<string>, pieces: seq<Piece>, pos: nat, pending: nat, idx: nat)
    requires pieces != [] && pieces[0].gap != [] && pos == idx + pending
    ensures Walk(orig, pieces, pos, pending) == Copied(orig, idx, pos) + Walk(orig, DropLine(pieces), pos + 1, 1)
  {
  }

  lemma {:induction false} WalkInsertion(orig: seq<string>, pieces: seq<Piece>, pos: nat, pending: nat)
    requires pieces != [] && pieces[0].gap == [] && PureInsertion(pieces[0].ops) && pending <= pos
    ensures Walk(orig, pieces, pos, pending) == NewOf(pieces[0].ops) + Walk(orig, pieces[1..], pos, pending)
  {
  }

  lemma {:induction false} WalkNaming(orig: seq<string>, pieces: seq<Piece>, pos: nat, pending: nat, idx: nat, next: nat)
    requires pieces != [] && pieces[0].gap == [] && !PureInsertion(pieces[0].ops) && pos == idx + pending
    requires next == pos + |OldOf(pieces[0].ops)|
    ensures Walk(orig, pieces, pos, pending)
      == Copied(orig, idx, pos) + BodyOut(orig, pos, pieces[0].ops) + Walk(orig, pieces[1..], next, 0)
  {
  }

  lemma {:induction false} CopiedOne(orig: seq<string>, i: nat, next: nat)
    requires i < |orig| && next == i + 1
    ensures Copied(orig, i, next) == [orig[i]]
  {
  }

  lemma {:induction false} CopiedNone(orig: seq<string>, i: nat, xs: seq<string>)
    ensures Copied(orig, i, i) + xs == xs
  {
  }

  lemma {:induction false} PassPending(orig: seq<string>, hunks: seq<Hunk>, pos: nat, pending: nat, idx: nat)
    requires pending <= 1 && pos == idx + pending <= |orig|
    requires hunks != [] && pos <= HunkStart(hunks[0])
    ensures ApplyFrom(orig, hunks, idx) == Copied(orig, idx, pos) + ApplyFrom(orig, hunks, pos)
  {
    if pending == 1 {
      PassOne(orig, hunks, idx, pos);
    } else {
      assert idx == pos;
      CopiedNone(orig, pos, ApplyFrom(orig, hunks, pos));
    }
  }

  lemma {:induction false} PassOne(orig: seq<string>, hunks: seq<Hunk>, idx: nat, pos: nat)
    requires pos == idx + 1 <= |orig| && hunks != [] && pos <= HunkStart(hunks[0])
    ensures ApplyFrom(orig, hunks, idx) == Copied(orig, idx, pos) + ApplyFrom(orig, hunks, pos)
  {
    var after := ApplyFrom(orig, hunks, pos);
    PendingLine(orig, hunks, idx);
    CopiedOne(orig, idx, pos);
    assert ApplyFrom(orig, hunks, idx) == [orig[idx]] + after;
  }

  lemma {:induction false} InsertionHunk(orig: seq<string>, ops: seq<DiffLine>, hunks: seq<Hunk>, pos: nat, idx: nat,
        later: seq<Hunk>)
    requires PureInsertion(ops) && idx <= |orig| && pos <= idx + 1
    requires hunks == [HunkOf(ops, pos)] + later
    ensures ApplyFrom(orig, hunks, idx) == NewOf(ops) + ApplyFrom(orig, later, idx)
  {
    InsertsInPlace(orig, ops, pos, idx);
    assert orig[idx..idx] == OldOf(ops);
    BodyOfScript(orig, idx, idx, ops);
    ApplyFromCons(orig, HunkOf(ops, pos), later, idx);
  }

  lemma {:induction false} NamingHunk(orig: seq<string>, ops: seq<DiffLine>, hunks: seq<Hunk>, pos: nat, idx: nat,
        next: nat, later: seq<Hunk>)
    requires !PureInsertion(ops) && idx <= pos && next == pos + |OldOf(ops)| <= |orig|
    requires hunks == [HunkOf(ops, pos)] + later
    ensures ApplyFrom(orig, hunks, idx)
      == Copied(orig, idx, pos) + BodyOut(orig, pos, ops) + ApplyFrom(orig, later, next)
  {
    NamingOut(orig, ops, pos, idx, next);
    ApplyFromCons(orig, HunkOf(ops, pos), later, idx);
  }

  lemma {:induction false} NamingOut(orig: seq<string>, ops: seq<DiffLine>, pos: nat, idx: nat, next: nat)
    requires !PureInsertion(ops) && idx <= pos && next == pos + |OldOf(ops)| <= |orig|
    ensures HunkOut(orig, HunkOf(ops, pos), idx) == Copied(orig, idx, pos) + BodyOut(orig, pos, ops)
    ensures HunkEnd(orig, HunkOf(ops, pos), idx) == next
  {
    var h := HunkOf(ops, pos);
    assert HunkStart(h) == pos && BodyStart(orig, h, idx) == pos;
    BodyEndCounts(orig, pos, ops);
  }

  // ---- What a script makes of its own old lines --------------------------------------------------

  /** The lines that come out while `pending` has still to come. */
  function Flow(pieces: seq<Piece>, pending: seq<string>): seq<string>
    decreases |pieces|, FirstGap(pieces)
  {
    if pieces == [] then pending
    else
      var ops, rest := pieces[0].ops, pieces[1..];
      if pieces[0].gap != [] then pending + Flow(DropLine(pieces), [pieces[0].gap[0]])
      else if PureInsertion(ops) then NewOf(ops) + Flow(rest, pending)
      else pending + NewOf(ops) + Flow(rest, [])
  }

  lemma {:induction false} WalkIsFlow(orig: seq<string>, pieces: seq<Piece>, pos: nat, pending: nat,
        before: seq<string>, tail: seq<string>)
    requires pending <= pos <= |orig| && before == orig[pos - pending..pos] && orig[pos..] == OldLines(pieces) + tail
    ensures Walk(orig, pieces, pos, pending) == Flow(pieces, before) + tail
    decreases |pieces|, FirstGap(pieces), 1
  {
    if pieces == [] {
      WholeTail(orig, pos, pending, before, tail);
    } else if pieces[0].gap != [] {
      var line, later := pieces[0].gap[0], DropLine(pieces);
      CopiedIsSlice(orig, pos - pending, pos, before);
      DropLineOld(pieces);
      NextLine(orig, pos, line, OldLines(later), tail);
      WalkIsFlow(orig, later, pos + 1, 1, [line], tail);
      WalkLine(orig, pieces, pos, pending, pos - pending);
      FlowLine(pieces, before);
      Assoc(before, Flow(later, [line]), tail);
    } else {
      FirstHunkIsFlow(orig, pieces, pos, pending, before, tail);
    }
  }

  lemma {:induction false} FirstHunkIsFlow(orig: seq<string>, pieces: seq<Piece>, pos: nat, pending: nat,
        before: seq<string>, tail: seq<string>)
    requires pending <= pos <= |orig| && before == orig[pos - pending..pos] && orig[pos..] == OldLines(pieces) + tail
    requires pieces != [] && pieces[0].gap == []
    ensures Walk(orig, pieces, pos, pending) == Flow(pieces, before) + tail
    decreases |pieces|, FirstGap(pieces), 0
  {
    var ops, rest := pieces[0].ops, pieces[1..];
    var next := pos + |OldOf(ops)|;
    CopiedIsSlice(orig, pos - pending, pos, before);
    PieceSlices(orig, pieces, tail, pos, pos, next);
    if PureInsertion(ops) {
      WalkIsFlow(orig, rest, pos, pending, before, tail);
      WalkInsertion(orig, pieces, pos, pending);
      FlowInsertion(pieces, before);
      Assoc(NewOf(ops), Flow(rest, before), tail);
    } else {
      WalkIsFlow(orig, rest, next, 0, [], tail);
      BodyOfScript(orig, pos, next, ops);
      WalkNaming(orig, pieces, pos, pending, pos - pending, next);
      FlowNaming(pieces, before);
      Assoc(before + NewOf(ops), Flow(rest, []), tail);
    }
  }

  lemma {:induction false} WholeTail(orig: seq<string>, pos: nat, pending: nat, before: seq<string>, tail: seq<string>)
    requires pending <= pos <= |orig| && before == orig[pos - pending..pos] && orig[pos..] == [] + tail
    ensures Copied(orig, pos - pending, |orig|) == before + tail
  {
    assert orig[pos - pending..] == before + orig[pos..];
  }

  lemma {:induction false} FlowLine(pieces: seq<Piece>, pending: seq<string>)
    requires pieces != [] && pieces[0].gap != []
    ensures Flow(pieces, pending) == pending + Flow(DropLine(pieces), [pieces[0].gap[0]])
  {
  }

  lemma {:induction false} FlowInsertion(pieces: seq<Piece>, pending: seq<string>)
    requires pieces != [] && pieces[0].gap == [] && PureInsertion(pieces[0].ops)
    ensures Flow(pieces, pending) == NewOf(pieces[0].ops) + Flow(pieces[1..], pending)
  {
  }

  lemma {:induction false} FlowNaming(pieces: seq<Piece>, pending: seq<string>)
    requires pieces != [] && pieces[0].gap == [] && !PureInsertion(pieces[0].ops)
    ensures Flow(pieces, pending) == pending + NewOf(pieces[0].ops) + Flow(pieces[1..], [])
  {
  }

  lemma {:induction false} CopiedIsSlice(orig: seq<string>, from: nat, to: nat, slice: seq<string>)
    requires from <= to <= |orig| && slice == orig[from..to]
    ensures Copied(orig, from, to) == slice
  {
  }

  lemma {:induction false} NextLine(orig: seq<string>, pos: nat, line: string, lines: seq<string>, tail: seq<string>)
    requires pos <= |orig| && orig[pos..] == [line] + lines + tail
    ensures pos < |orig| && orig[pos] == line && orig[pos..pos + 1] == [line]
    ensures orig[pos + 1..] == lines + tail
  {
    assert orig[pos..][0] == line;
    assert orig[pos + 1..] == orig[pos..][1..];
  }

  lemma {:induction false} FlowLength(pieces: seq<Piece>, pending: seq<string>)
    ensures |Flow(pieces, pending)| == |pending| + |NewLines(pieces)|
    decreases |pieces|, FirstGap(pieces)
  {
    if pieces != [] {
      if pieces[0].gap != [] {
        FlowLength(DropLine(pieces), [pieces[0].gap[0]]);
        assert DropLine(pieces)[1..] == pieces[1..];
      } else if PureInsertion(pieces[0].ops) {
        FlowLength(pieces[1..], pending);
      } else {
        FlowLength(pieces[1..], []);
      }
    }
  }

  // ---- Undoing it --------------------------------------------------------------------------------

  predicate AllEqual(xs: seq<string>, x: string) {
    forall i | 0 <= i < |xs| :: xs[i] == x
  }

  /** Behind the line `last`: do the reversed hunks undo the rest of the script?  `early` while only
      insertions stood between, so that the script put theirs before `last`; `open` while the reversed
      hunks only insert, too, and have still to copy that line. */
  predicate Undoes(pieces: seq<Piece>, early: bool, open_: bool, last: string)
    decreases |pieces|, FirstGap(pieces)
  {
    if pieces == [] then true
    else if pieces[0].gap != [] then Undoes(DropLine(pieces), true, true, pieces[0].gap[0])
    else
      var added, removed := NewOf(pieces[0].ops), OldOf(pieces[0].ops);
      && (open_ && early && removed == [] && added != [] ==> added[0] == last)
      && (open_ && added == [] ==> AllEqual(removed, last))
      && Undoes(pieces[1..], early && removed == [], open_ && added == [], last)
  }

  /** What the script makes of its lines from `last` on. */
  function FromLast(pieces: seq<Piece>, early: bool, last: string): seq<string> {
    if early then Flow(pieces, [last]) else [last] + Flow(pieces, [])
  }

  /** What of it the reversed hunks have still to read. */
  function Unread(pieces: seq<Piece>, early: bool, open_: bool, last: string): seq<string> {
    FlowLength(pieces, [last]);
    if open_ then FromLast(pieces, early, last) else FromLast(pieces, early, last)[1..]
  }

  function Pending(open_: bool): nat { if open_ then 1 else 0 }
  function Line(open_: bool, last: string): seq<string> { if open_ then [last] else [] }

  lemma {:induction false} DropLineReversed(pieces: seq<Piece>)
    requires pieces != [] && pieces[0].gap != []
    ensures ReversedPieces(pieces)[0].gap == pieces[0].gap
    ensures ReversedPieces(DropLine(pieces)) == DropLine(ReversedPieces(pieces))
  {
    assert DropLine(pieces)[1..] == pieces[1..];
  }

  /** Deleting lines and then copying some, compared with copying them unharmed. */
  lemma {:induction false} EarlyLines(xs: seq<string>, last: string, ys: seq<string>, zs: seq<string>)
    ensures xs + ys == [last] + xs + zs <==> AllEqual(xs, last) && ys == [last] + zs
  {
    if xs + ys == [last] + xs + zs {
      assert xs == (xs + ys)[..|xs|] == ([last] + xs + zs)[..|xs|] == ([last] + xs)[..|xs|];
      forall i | 0 <= i < |xs| ensures xs[i] == last {
        ShiftFixed(last, xs, i);
      }
      assert [last] + xs == xs + [last];
      assert xs + ys == xs + ([last] + zs);
      assert ys == (xs + ys)[|xs|..] == (xs + ([last] + zs))[|xs|..];
    }
    if AllEqual(xs, last) && ys == [last] + zs {
      assert [last] + xs == xs + [last];
      assert xs + ys == xs + [last] + zs;
    }
  }

  lemma {:induction false} ShiftFixed(x: string, xs: seq<string>, i: nat)
    requires xs == ([x] + xs)[..|xs|] && i < |xs|
    ensures xs[i] == x
  {
    assert xs[i] == ([x] + xs)[i];
    if i > 0 {
      ShiftFixed(x, xs, i - 1);
    }
  }

  lemma {:induction false} SameStart(a: seq<string>, b: seq<string>, c: seq<string>)
    ensures a + b == a + c <==> b == c
  {
    AppendEqual(a, b, a, c);
  }

  lemma {:induction false} RemovalsEmitNothing(orig: seq<string>, idx: nat, ops: seq<DiffLine>)
    requires NewOf(ops) == []
    ensures BodyOut(orig, idx, ops) == []
    decreases |ops|
  {
    if ops != [] {
      RemovalsEmitNothing(orig, AfterLine(orig, idx, ops[0]), ops[1..]);
    }
  }

  /** Walking on with the reversed hunks gives back the old lines. */
  ghost predicate GivesBack(text: seq<string>, pieces: seq<Piece>, pos: nat, open_: bool, last: string, tail: seq<string>)
    requires Pending(open_) <= pos
  {
    Walk(text, ReversedPieces(pieces), pos, Pending(open_)) == Line(open_, last) + (OldLines(pieces) + tail)
  }

  lemma {:induction false} SameThree(a: seq<string>, b: seq<string>, mid: seq<string>, x: seq<string>, y: seq<string>)
    requires |a| == |b|
    ensures a + mid + x == b + mid + y <==> a == b && x == y
  {
    AppendEqual(a + mid, x, b + mid, y);
    AppendEqual(a, mid, b, mid);
  }

  lemma {:induction false} FromLastLine(pieces: seq<Piece>, early: bool, last: string)
    requires pieces != [] && pieces[0].gap != []
    ensures FromLast(pieces, early, last) == [last] + Flow(DropLine(pieces), [pieces[0].gap[0]])
  {
    FlowLine(pieces, [last]);
    FlowLine(pieces, []);
    assert [] + Flow(DropLine(pieces), [pieces[0].gap[0]]) == Flow(DropLine(pieces), [pieces[0].gap[0]]);
  }

  /** A hunk that adds nothing. */
  lemma {:induction false} FromLastRemoves(pieces: seq<Piece>, early: bool, last: string)
    requires pieces != [] && pieces[0].gap == [] && NewOf(pieces[0].ops) == []
    ensures FromLast(pieces, early, last) == FromLast(pieces[1..], early && OldOf(pieces[0].ops) == [], last)
  {
    var later, behind := Flow(pieces[1..], []), Flow(pieces[1..], [last]);
    assert [] + later == later && [] + behind == behind && [last] + [] + later == [last] + later;
    if PureInsertion(pieces[0].ops) {
      FlowInsertion(pieces, [last]);
      FlowInsertion(pieces, []);
    } else {
      FlowNaming(pieces, [last]);
      FlowNaming(pieces, []);
    }
  }

  /** A hunk that adds lines: one line before those that take their place, these, and the rest. */
  lemma {:induction false} FromLastInserts(pieces: seq<Piece>, last: string) returns (mid: seq<string>)
    requires pieces != [] && pieces[0].gap == [] && NewOf(pieces[0].ops) != [] && OldOf(pieces[0].ops) == []
    ensures
      var added := NewOf(pieces[0].ops);
      |mid| == |added| && FromLast(pieces, true, last) == [added[0]] + mid + Unread(pieces[1..], true, false, last)
  {
    var added, behind := NewOf(pieces[0].ops), Flow(pieces[1..], [last]);
    FlowInsertion(pieces, [last]);
    FlowLength(pieces[1..], [last]);
    mid := added[1..] + [behind[0]];
    assert behind == [behind[0]] + behind[1..] && added == [added[0]] + added[1..];
    assert added + behind == [added[0]] + mid + behind[1..];
  }

  lemma {:induction false} FromLastAdds(pieces: seq<Piece>, early: bool, last: string)
    returns (head: string, mid: seq<string>)
    requires pieces != [] && pieces[0].gap == [] && NewOf(pieces[0].ops) != []
    ensures
      var added, removed := NewOf(pieces[0].ops), OldOf(pieces[0].ops);
      && head == (if early && removed == [] then added[0] else last)
      && |mid| == |added| && (removed != [] ==> mid == added)
      && FromLast(pieces, early, last) == [head] + mid + Unread(pieces[1..], early && removed == [], false, last)
  {
    var added := NewOf(pieces[0].ops);
    if early && OldOf(pieces[0].ops) == [] {
      head := added[0];
      mid := FromLastInserts(pieces, last);
    } else {
      head, mid := last, added;
      InPlace(pieces, last);
      assert ([last] + Flow(pieces[1..], []))[1..] == Flow(pieces[1..], []);
    }
  }

  lemma {:induction false} InPlace(pieces: seq<Piece>, last: string)
    requires pieces != [] && pieces[0].gap == []
    ensures [last] + Flow(pieces, []) == [last] + NewOf(pieces[0].ops) + Flow(pieces[1..], [])
    ensures !PureInsertion(pieces[0].ops) ==> Flow(pieces, [last]) == [last] + NewOf(pieces[0].ops) + Flow(pieces[1..], [])
  {
    var added, later := NewOf(pieces[0].ops), Flow(pieces[1..], []);
    if PureInsertion(pieces[0].ops) {
      FlowInsertion(pieces, []);
    } else {
      FlowNaming(pieces, []);
      FlowNaming(pieces, [last]);
      Assoc([], added, later);
      EmptyFirst(added + later);
    }
    Assoc([last], added, later);
  }

  lemma {:induction false} EmptyFirst(xs: seq<string>)
    ensures [] + xs == xs
  {
  }

  lemma {:induction false} OldTouching(pieces: seq<Piece>)
    requires pieces != [] && pieces[0].gap == []
    ensures OldLines(pieces) == OldOf(pieces[0].ops) + OldLines(pieces[1..])
  {
    assert [] + OldOf(pieces[0].ops) == OldOf(pieces[0].ops);
  }

  lemma {:induction false} ReversedFirst(pieces: seq<Piece>)
    requires pieces != []
    ensures
      var r := ReversedPieces(pieces);
      && r[0].gap == pieces[0].gap && r[1..] == ReversedPieces(pieces[1..])
      && OldOf(r[0].ops) == NewOf(pieces[0].ops) && NewOf(r[0].ops) == OldOf(pieces[0].ops)
  {
    ReversedOps(pieces[0].ops);
  }

  /** `text` goes on as the script made it.  Walking it with the reversed hunks gives back the old lines
      exactly when `Undoes` holds. */
  lemma {:induction false} UndoneExactlyWhen(text: seq<string>, pieces: seq<Piece>, pos: nat, early: bool, open_: bool,
        last: string, tail: seq<string>)
    requires Pending(open_) <= pos <= |text|
    requires text[pos - Pending(open_)..] == Unread(pieces, early, open_, last) + tail
    ensures GivesBack(text, pieces, pos, open_, last, tail) <==> Undoes(pieces, early, open_, last)
    decreases |pieces|, FirstGap(pieces), 1
  {
    if pieces == [] {
      NothingToUndo(text, pos, early, open_, last, tail);
    } else if pieces[0].gap != [] {
      var line, later := pieces[0].gap[0], DropLine(pieces);
      UnreadLine(text, pieces, pos, early, open_, last, tail);
      UndoneExactlyWhen(text, later, pos + 1, true, true, line, tail);
      UndoLine(text, pieces, pos, early, open_, last, tail);
    } else {
      UndoneTouching(text, pieces, pos, early, open_, last, tail);
    }
  }

  /** The same for a script whose first hunk touches what is already undone. */
  lemma {:induction false} UndoneTouching(text: seq<string>, pieces: seq<Piece>, pos: nat, early: bool, open_: bool,
        last: string, tail: seq<string>)
    requires Pending(open_) <= pos <= |text| && pieces != [] && pieces[0].gap == []
    requires text[pos - Pending(open_)..] == Unread(pieces, early, open_, last) + tail
    ensures GivesBack(text, pieces, pos, open_, last, tail) <==> Undoes(pieces, early, open_, last)
    decreases |pieces|, FirstGap(pieces), 0
  {
    var added, removed, rest := NewOf(pieces[0].ops), OldOf(pieces[0].ops), pieces[1..];
    if added == [] {
      FromLastRemoves(pieces, early, last);
      UndoneExactlyWhen(text, rest, pos, early && removed == [], open_, last, tail);
      UndoRemoval(text, pieces, pos, early, open_, last, tail);
    } else {
      var next := pos + |added|;
      var head, mid := UnreadAdds(text, pieces, pos, next, early, open_, last, tail);
      UndoneExactlyWhen(text, rest, next, early && removed == [], false, last, tail);
      UndoAddition(text, pieces, pos, next, early, open_, last, tail, head, mid);
    }
  }

  lemma {:induction false} NothingToUndo(text: seq<string>, pos: nat, early: bool, open_: bool, last: string,
        tail: seq<string>)
    requires Pending(open_) <= pos <= |text|
    requires text[pos - Pending(open_)..] == Unread([], early, open_, last) + tail
    ensures GivesBack(text, [], pos, open_, last, tail)
  {
    assert [last] + [] == [last] && [last][1..] == [] && [] + tail == tail;
    assert Copied(text, pos - Pending(open_), |text|) == text[pos - Pending(open_)..];
  }

  lemma {:induction false} UnreadLine(text: seq<string>, pieces: seq<Piece>, pos: nat, early: bool, open_: bool,
        last: string, tail: seq<string>)
    requires Pending(open_) <= pos <= |text| && pieces != [] && pieces[0].gap != []
    requires text[pos - Pending(open_)..] == Unread(pieces, early, open_, last) + tail
    ensures pos < |text| && Copied(text, pos - Pending(open_), pos) == Line(open_, last)
    ensures text[pos..] == Unread(DropLine(pieces), true, true, pieces[0].gap[0]) + tail
  {
    var flow := Flow(DropLine(pieces), [pieces[0].gap[0]]);
    FromLastLine(pieces, early, last);
    FlowLength(DropLine(pieces), [pieces[0].gap[0]]);
    UnreadIs(FromLast(pieces, early, last), open_, last, flow, tail);
    FrontOf(text, pos - Pending(open_), pos, Line(open_, last), flow + tail);
  }

  /** Of `head` and what follows it, the first is unread only while `open_`. */
  lemma {:induction false} UnreadIs(all: seq<string>, open_: bool, head: string, later: seq<string>, tail: seq<string>)
    requires all == [head] + later
    ensures (if open_ then all else all[1..]) + tail == Line(open_, head) + (later + tail)
  {
    if open_ {
      Assoc([head], later, tail);
    } else {
      assert all[1..] == later;
      EmptyFirst(later + tail);
    }
  }

  lemma {:induction false} FrontOf(text: seq<string>, from: nat, pos: nat, front: seq<string>, rest: seq<string>)
    requires from <= |text| && text[from..] == front + rest && pos == from + |front|
    ensures pos <= |text| && text[pos..] == rest && Copied(text, from, pos) == front
  {
    assert text[from..pos] == text[from..][..|front|];
    assert text[pos..] == text[from..][|front|..];
  }

  lemma {:induction false} SliceOf(text: seq<string>, pos: nat, mid: seq<string>, rest: seq<string>)
    requires pos <= |text| && text[pos..] == mid + rest
    ensures pos + |mid| <= |text| && text[pos..pos + |mid|] == mid
  {
    assert text[pos..pos + |mid|] == text[pos..][..|mid|];
  }

  lemma {:induction false} UndoLine(text: seq<string>, pieces: seq<Piece>, pos: nat, early: bool, open_: bool,
        last: string, tail: seq<string>)
    requires Pending(open_) <= pos && pieces != [] && pieces[0].gap != []
    requires Copied(text, pos - Pending(open_), pos) == Line(open_, last)
    requires GivesBack(text, DropLine(pieces), pos + 1, true, pieces[0].gap[0], tail)
      <==> Undoes(DropLine(pieces), true, true, pieces[0].gap[0])
    ensures GivesBack(text, pieces, pos, open_, last, tail) <==> Undoes(pieces, early, open_, last)
  {
    var line, later := pieces[0].gap[0], DropLine(pieces);
    DropLineReversed(pieces);
    DropLineOld(pieces);
    WalkLine(text, ReversedPieces(pieces), pos, Pending(open_), pos - Pending(open_));
    Assoc([line], OldLines(later), tail);
    SameStart(Line(open_, last), Walk(text, ReversedPieces(later), pos + 1, 1), [line] + (OldLines(later) + tail));
  }

  lemma {:induction false} UndoRemoval(text: seq<string>, pieces: seq<Piece>, pos: nat, early: bool, open_: bool,
        last: string, tail: seq<string>)
    requires Pending(open_) <= pos && pieces != [] && pieces[0].gap == [] && NewOf(pieces[0].ops) == []
    requires GivesBack(text, pieces[1..], pos, open_, last, tail)
      <==> Undoes(pieces[1..], early && OldOf(pieces[0].ops) == [], open_, last)
    ensures GivesBack(text, pieces, pos, open_, last, tail) <==> Undoes(pieces, early, open_, last)
  {
    var removed, rest := OldOf(pieces[0].ops), pieces[1..];
    var walk := Walk(text, ReversedPieces(rest), pos, Pending(open_));
    var back := OldLines(rest) + tail;
    ReversedFirst(pieces);
    WalkInsertion(text, ReversedPieces(pieces), pos, Pending(open_));
    OldTouching(pieces);
    Assoc(removed, OldLines(rest), tail);
    if open_ {
      EarlyLines(removed, last, walk, back);
      Assoc([last], removed, back);
    } else {
      assert [] + (removed + back) == removed + back && [] + back == back;
      SameStart(removed, walk, back);
    }
  }

  lemma {:induction false} UnreadAdds(text: seq<string>, pieces: seq<Piece>, pos: nat, next: nat, early: bool,
        open_: bool,
        last: string, tail: seq<string>)
    returns (head: string, mid: seq<string>)
    requires Pending(open_) <= pos <= |text| && pieces != [] && pieces[0].gap == [] && NewOf(pieces[0].ops) != []
    requires text[pos - Pending(open_)..] == Unread(pieces, early, open_, last) + tail
    requires next == pos + |NewOf(pieces[0].ops)|
    ensures head == if early && OldOf(pieces[0].ops) == [] then NewOf(pieces[0].ops)[0] else last
    ensures next <= |text| && Copied(text, pos - Pending(open_), pos) == Line(open_, head) && text[pos..next] == mid
    ensures OldOf(pieces[0].ops) != [] ==> mid == NewOf(pieces[0].ops)
    ensures text[next..] == Unread(pieces[1..], early && OldOf(pieces[0].ops) == [], false, last) + tail
  {
    head, mid := FromLastAdds(pieces, early, last);
    var later := Unread(pieces[1..], early && OldOf(pieces[0].ops) == [], false, last);
    Assoc([head], mid, later);
    UnreadIs(FromLast(pieces, early, last), open_, head, mid + later, tail);
    Assoc(mid, later, tail);
    FrontOf(text, pos - Pending(open_), pos, Line(open_, head), mid + (later + tail));
    FrontOf(text, pos, next, mid, later + tail);
    SliceOf(text, pos, mid, later + tail);
  }

  lemma {:induction false} UndoAddition(text: seq<string>, pieces: seq<Piece>, pos: nat, next: nat, early: bool,
        open_: bool, last: string, tail: seq<string>, head: string, mid: seq<string>)
    requires Pending(open_) <= pos && pieces != [] && pieces[0].gap == [] && NewOf(pieces[0].ops) != []
    requires next == pos + |NewOf(pieces[0].ops)| <= |text|
    requires Copied(text, pos - Pending(open_), pos) == Line(open_, head) && text[pos..next] == mid
    requires OldOf(pieces[0].ops) != [] ==> mid == NewOf(pieces[0].ops)
    requires head == if early && OldOf(pieces[0].ops) == [] then NewOf(pieces[0].ops)[0] else last
    requires GivesBack(text, pieces[1..], next, false, last, tail)
      <==> Undoes(pieces[1..], early && OldOf(pieces[0].ops) == [], false, last)
    ensures GivesBack(text, pieces, pos, open_, last, tail) <==> Undoes(pieces, early, open_, last)
  {
    var removed, rest := OldOf(pieces[0].ops), pieces[1..];
    var r := ReversedPieces(pieces);
    var walk := Walk(text, ReversedPieces(rest), next, 0);
    ReversedFirst(pieces);
    WalkNaming(text, r, pos, Pending(open_), pos - Pending(open_), next);
    if removed == [] {
      RemovalsEmitNothing(text, pos, r[0].ops);
    } else {
      BodyOfScript(text, pos, next, r[0].ops);
    }
    OldTouching(pieces);
    Assoc(removed, OldLines(rest), tail);
    Assoc(Line(open_, last), removed, OldLines(rest) + tail);
    SameThree(Line(open_, head), Line(open_, last), removed, walk, OldLines(rest) + tail);
    assert Line(open_, head) == Line(open_, last) <==> (open_ ==> head == last);
    EmptyFirst(OldLines(rest) + tail);
  }

  // ---- The condition, hunk by hunk ---------------------------------------------------------------

  /** An insertion below the top whose first line repeats the line before it. */
  predicate LuckyInsertion(p: Piece) {
    PureInsertion(p.ops) && p.gap != [] && NewOf(p.ops) != [] ==> NewOf(p.ops)[0] == p.gap[|p.gap| - 1]
  }

  predicate AllLucky(pieces: seq<Piece>) {
    forall i | 0 <= i < |pieces| :: LuckyInsertion(pieces[i])
  }

  lemma {:induction false} AllLuckyCons(p: Piece, rest: seq<Piece>)
    ensures AllLucky([p] + rest) <==> LuckyInsertion(p) && AllLucky(rest)
  {
    var pieces := [p] + rest;
    assert pieces[0] == p;
    forall i | 0 <= i < |rest| ensures rest[i] == pieces[i + 1] {
    }
  }

  lemma {:induction false} HarmlessIsLucky(pieces: seq<Piece>)
    requires AllHarmless(pieces)
    ensures AllLucky(pieces)
  {
    forall i | 0 <= i < |pieces| ensures LuckyInsertion(pieces[i]) {
      assert HarmlessInsertion(pieces[i]);
    }
  }

  predicate Touching(pieces: seq<Piece>) {
    pieces != [] && pieces[0].gap == [] && PureInsertion(pieces[0].ops)
  }

  /** The same, behind the line `last` if that is still `open_`. */
  predicate LuckyBehind(pieces: seq<Piece>, open_: bool, last: string) {
    && (open_ && Touching(pieces) && NewOf(pieces[0].ops) != [] ==> NewOf(pieces[0].ops)[0] == last)
    && AllLucky(pieces)
  }

  predicate HarmlessBehind(pieces: seq<Piece>, open_: bool, last: string) {
    && (open_ && Touching(pieces) ==> AllEqual(NewOf(pieces[0].ops), last))
    && AllHarmless(pieces)
  }

  lemma {:induction false} MergedDropLine(pieces: seq<Piece>)
    requires pieces != [] && pieces[0].gap != []
    ensures
      var m := Merged(pieces);
      m != [] && m[0].gap == pieces[0].gap && Merged(DropLine(pieces)) == DropLine(m)
  {
    assert DropLine(pieces)[1..] == pieces[1..];
  }

  lemma {:induction false} LuckyBehindFirstLine(pieces: seq<Piece>, open_: bool, last: string)
    requires pieces != [] && pieces[0].gap != []
    ensures LuckyBehind(pieces, open_, last) <==> LuckyBehind(DropLine(pieces), true, pieces[0].gap[0])
  {
    var p, rest := pieces[0], pieces[1..];
    assert pieces == [p] + rest;
    AllLuckyCons(p, rest);
    AllLuckyCons(Piece(p.gap[1..], p.ops), rest);
  }

  lemma {:induction false} HarmlessBehindFirstLine(pieces: seq<Piece>, open_: bool, last: string)
    requires pieces != [] && pieces[0].gap != []
    ensures HarmlessBehind(pieces, open_, last) <==> HarmlessBehind(DropLine(pieces), true, pieces[0].gap[0])
  {
    var p, rest := pieces[0], pieces[1..];
    assert pieces == [p] + rest;
    AllHarmlessCons(p, rest);
    AllHarmlessCons(Piece(p.gap[1..], p.ops), rest);
  }

  lemma {:induction false} LuckyGlue(p: Piece, rest: seq<Piece>, open_: bool, last: string)
    requires p.gap == []
    ensures
      var added, removed := NewOf(p.ops), OldOf(p.ops);
      LuckyBehind(Glue(p, rest), open_, last)
      <==> (open_ && removed == [] && added != [] ==> added[0] == last)
           && LuckyBehind(rest, open_ && removed == [] && added == [], last)
  {
    if Touching(rest) {
      var r, later := rest[0], rest[1..];
      assert rest == [r] + later;
      AllLuckyCons(r, later);
      AllLuckyCons(Piece(p.gap, p.ops + r.ops), later);
      OldOfAppend(p.ops, r.ops);
      NewOfAppend(p.ops, r.ops);
    } else {
      AllLuckyCons(p, rest);
    }
  }

  lemma {:induction false} HarmlessGlue(p: Piece, rest: seq<Piece>, open_: bool, last: string)
    requires p.gap == []
    ensures
      HarmlessBehind(Glue(p, rest), open_, last)
      <==> (open_ && OldOf(p.ops) == [] ==> AllEqual(NewOf(p.ops), last))
           && HarmlessBehind(rest, open_ && OldOf(p.ops) == [], last)
  {
    if Touching(rest) {
      var r, later := rest[0], rest[1..];
      assert rest == [r] + later;
      AllHarmlessCons(r, later);
      AllHarmlessCons(Piece(p.gap, p.ops + r.ops), later);
      OldOfAppend(p.ops, r.ops);
      NewOfAppend(p.ops, r.ops);
      AllEqualAppend(NewOf(p.ops), NewOf(r.ops), last);
    } else {
      AllHarmlessCons(p, rest);
    }
  }

  lemma {:induction false} AllEqualAppend(xs: seq<string>, ys: seq<string>, x: string)
    ensures AllEqual(xs + ys, x) <==> AllEqual(xs, x) && AllEqual(ys, x)
  {
    forall i | 0 <= i < |xs| ensures (xs + ys)[i] == xs[i] {
    }
    forall i | 0 <= i < |ys| ensures (xs + ys)[|xs| + i] == ys[i] {
    }
  }

  lemma {:induction false} UndoesHunkByHunk(pieces: seq<Piece>, early: bool, open_: bool, last: string)
    ensures Undoes(pieces, early, open_, last)
      <==> LuckyBehind(Merged(pieces), early && open_, last) && HarmlessBehind(Merged(ReversedPieces(pieces)), open_, last)
    decreases |pieces|, FirstGap(pieces)
  {
    if pieces != [] {
      var reversed := ReversedPieces(pieces);
      ReversedFirst(pieces);
      if pieces[0].gap != [] {
        UndoesHunkByHunk(DropLine(pieces), true, true, pieces[0].gap[0]);
        DropLineReversed(pieces);
        MergedDropLine(pieces);
        MergedDropLine(reversed);
        LuckyBehindFirstLine(Merged(pieces), early && open_, last);
        HarmlessBehindFirstLine(Merged(reversed), open_, last);
      } else {
        var added, removed, rest := NewOf(pieces[0].ops), OldOf(pieces[0].ops), pieces[1..];
        UndoesHunkByHunk(rest, early && removed == [], open_ && added == [], last);
        LuckyGlue(pieces[0], Merged(rest), early && open_, last);
        HarmlessGlue(reversed[0], Merged(ReversedPieces(rest)), open_, last);
      }
    }
  }

  // ---- The result --------------------------------------------------------------------------------

  /** Applying the reversed hunks to whatever the applier made of an edit script restores the old lines
      exactly when, touching hunks taken as one, every hunk of the script that only inserts below the
      top begins with a copy of the line before it, and every hunk of the reversed script that only
      inserts there consists of such copies. */
  lemma {:induction false} ReverseExactlyWhen(pieces: seq<Piece>, tail: seq<string>)
    ensures var orig := OldLines(pieces) + tail;
            var new_ := ApplyFrom(orig, HunksOf(pieces, 0), 0);
            ApplyFrom(new_, HunksOf(ReversedPieces(pieces), 0), 0) == orig
            <==> AllLucky(Merged(pieces)) && AllHarmless(Merged(ReversedPieces(pieces)))
  {
    var orig, made := OldLines(pieces) + tail, Flow(pieces, []) + tail;
    var reversed := ReversedPieces(pieces);
    assert orig[0..] == orig && orig[0..0] == [];
    ApplyIsWalk(orig, pieces, HunksOf(pieces, 0), 0, 0, 0);
    WalkIsFlow(orig, pieces, 0, 0, [], tail);
    FlowLength(pieces, []);
    ReversedLines(pieces);
    ApplyIsWalk(made, reversed, HunksOf(reversed, 0), 0, 0, 0);
    assert made[0..] == made && ([""] + Flow(pieces, []))[1..] == Flow(pieces, []);
    UndoneExactlyWhen(made, pieces, 0, false, false, "", tail);
    assert [] + orig == orig;
    UndoesHunkByHunk(pieces, false, false, "");
  }

  // One script inserts behind the only line, the other removes the line behind it.
  const INSERTS: seq<Piece> := [Piece(["a"], [Add("a"), Add("b")])]
  const REMOVES: seq<Piece> := [Piece(["a"], [Remove("b")])]

  lemma {:induction false} ReversedScripts()
    ensures ReversedPieces(INSERTS) == [Piece(["a"], [Remove("a"), Remove("b")])]
    ensures ReversedPieces(REMOVES) == [Piece(["a"], [Add("b")])]
  {
    var added, removed := INSERTS[0].ops, REMOVES[0].ops;
    assert added[1..] == [Add("b")] && added[1..][1..] == [] && removed[1..] == [];
    assert Reversed(added) == [Remove("a"), Remove("b")] && Reversed(removed) == [Add("b")];
    assert INSERTS[1..] == [] && REMOVES[1..] == [];
  }

  lemma {:induction false} OneHunk(orig: seq<string>, p: Piece)
    ensures Merged([p]) == [p]
    ensures
      var h := HunkOf(p.ops, |p.gap|);
      ApplyFrom(orig, HunksOf([p], 0), 0) == HunkOut(orig, h, 0) + Copied(orig, HunkEnd(orig, h, 0), |orig|)
  {
    assert [p][1..] == [];
    assert HunksOf([p], 0) == [HunkOf(p.ops, |p.gap|)] + [];
    ApplyFromCons(orig, HunkOf(p.ops, |p.gap|), [], 0);
  }

  lemma {:induction false} TwoLines(a: DiffLine, b: DiffLine)
    ensures OldOf([a, b]) == OldOf([a]) + OldOf([b]) && NewOf([a, b]) == NewOf([a]) + NewOf([b])
    ensures OldOf([a]) == (if a.Add? then [] else [a.text]) && NewOf([a]) == (if a.Remove? then [] else [a.text])
  {
    assert [a, b] == [a] + [b];
    OldOfAppend([a], [b]);
    NewOfAppend([a], [b]);
  }

  /** A script that is undone although it yields the wrong lines. */
  lemma {:induction false} WrongIsUndone()
    ensures ApplyFrom(["a"], HunksOf(INSERTS, 0), 0) == ["a", "b", "a"] && NewLines(INSERTS) == ["a", "a", "b"]
    ensures ApplyFrom(["a", "b", "a"], HunksOf(ReversedPieces(INSERTS), 0), 0) == ["a"] == OldLines(INSERTS)
  {
    ReversedScripts();
    TwoLines(Add("a"), Add("b"));
    TwoLines(Remove("a"), Remove("b"));
    OneHunk(["a"], INSERTS[0]);
    OneHunk(["a", "b", "a"], Piece(["a"], [Remove("a"), Remove("b")]));
    assert INSERTS[1..] == [];
  }

  /** A script that yields the right lines and is not undone. */
  lemma {:induction false} RightIsNotUndone()
    ensures ApplyFrom(["a", "b"], HunksOf(REMOVES, 0), 0) == ["a"] == NewLines(REMOVES)
    ensures ApplyFrom(["a"], HunksOf(ReversedPieces(REMOVES), 0), 0) == ["b", "a"] && OldLines(REMOVES) == ["a", "b"]
  {
    ReversedScripts();
    OneHunk(["a", "b"], REMOVES[0]);
    OneHunk(["a"], Piece(["a"], [Add("b")]));
    assert REMOVES[1..] == [];
  }

  lemma {:induction false} OnePiece(gap: seq<string>, ops: seq<DiffLine>)
    ensures var p := Piece(gap, ops); Merged([p]) == [p]
    ensures AllHarmless([Piece(gap, ops)]) <==> HarmlessInsertion(Piece(gap, ops))
    ensures AllLucky([Piece(gap, ops)]) <==> LuckyInsertion(Piece(gap, ops))
  {
    var p := Piece(gap, ops);
    OneHunk([], p);
    assert [p] == [p] + [];
    AllHarmlessCons(p, []);
    AllLuckyCons(p, []);
  }

  lemma {:induction false} ConditionsDiffer()
    ensures !AllHarmless(Merged(INSERTS)) && AllLucky(Merged(INSERTS)) && AllHarmless(Merged(ReversedPieces(INSERTS)))
    ensures AllHarmless(Merged(REMOVES)) && !AllHarmless(Merged(ReversedPieces(REMOVES)))
  {
    ReversedScripts();
    OnePiece(["a"], [Add("a"), Add("b")]);
    OnePiece(["a"], [Remove("a"), Remove("b")]);
    OnePiece(["a"], [Remove("b")]);
    OnePiece(["a"], [Add("b")]);
    TwoLines(Add("a"), Add("b"));
    TwoLines(Remove("a"), Remove("b"));
    assert NewOf([Add("a"), Add("b")])[1] == "b" && NewOf([Add("b")])[0] == "b";
  }

  /** A script that is undone although it yields the wrong lines, and one that yields the right lines
      and is not undone. */
  lemma {:induction false} RightAndUndoneDiffer()
    ensures !AllHarmless(Merged(INSERTS)) && AllLucky(Merged(INSERTS)) && AllHarmless(Merged(ReversedPieces(INSERTS)))
    ensures
      var made := ApplyFrom(OldLines(INSERTS), HunksOf(INSERTS, 0), 0);
      && made == ["a", "b", "a"] && NewLines(INSERTS) == ["a", "a", "b"]
      && ApplyFrom(made, HunksOf(ReversedPieces(INSERTS), 0), 0) == OldLines(INSERTS)
    ensures AllHarmless(Merged(REMOVES)) && !AllHarmless(Merged(ReversedPieces(REMOVES)))
    ensures
      var made := ApplyFrom(OldLines(REMOVES), HunksOf(REMOVES, 0), 0);
      && made == NewLines(REMOVES)
      && ApplyFrom(made, HunksOf(ReversedPieces(REMOVES), 0), 0) == ["b", "a"] && OldLines(REMOVES) == ["a", "b"]
  {
    ConditionsDiffer();
    WrongIsUndone();
    RightIsNotUndone();
  }

  /** The ordinary case: neither direction has a hunk that only inserts below the top of the file. */
  lemma {:induction false} ReverseRestores(pieces: seq<Piece>, tail: seq<string>)
    requires forall i | 0 <= i < |pieces| ::
      OldOf(pieces[i].ops) == [] || NewOf(pieces[i].ops) == [] ==> i == 0 && pieces[i].gap == []
    ensures var orig := OldLines(pieces) + tail;
            var new_ := ApplyFrom(orig, HunksOf(pieces, 0), 0);
            ApplyFrom(new_, HunksOf(ReversedPieces(pieces), 0), 0) == orig
  {
    forall i | 0 <= i < |pieces| ensures
        PureInsertion(ReversedPieces(pieces)[i].ops) ==> i == 0 && ReversedPieces(pieces)[i].gap == [] {
      ReversedPieceAt(pieces, i);
      ReversedOps(pieces[i].ops);
    }
    OrdinaryIsHarmless(pieces);
    OrdinaryIsHarmless(ReversedPieces(pieces));
    HarmlessIsLucky(pieces);
    ReverseExactlyWhen(pieces, tail);
  }
}

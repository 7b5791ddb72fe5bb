/** What a hunk does to a file it was not made for (crates/rustykrab-tools/src/apply_patch.rs, lines
    144-204): nothing compares its old lines with the file, and its count decides what is skipped. */
module HunkTolerance {
  import opened Options
  import opened Seqs
  import opened ApplyPatch

  /** The lines of a hunk against as many old lines as it names: kept for context, dropped for a removal,
      whatever the hunk says they are. */
  function Woven(olds: seq<string>, lines: seq<DiffLine>): seq<string>
    requires |olds| == |OldOf(lines)|
    decreases |lines|
  {
    if lines == [] then []
    else
      match lines[0]
      case Context(_) => [olds[0]] + Woven(olds[1..], lines[1..])
      case Remove(_) => Woven(olds[1..], lines[1..])
      case Add(text) => [text] + Woven(olds, lines[1..])
  }

  lemma {:induction false} BodyIsWoven(orig: seq<string>, idx: nat, olds: seq<string>, lines: seq<DiffLine>)
    requires |olds| == |OldOf(lines)| && idx + |olds| <= |orig| && orig[idx..idx + |olds|] == olds
    ensures BodyOut(orig, idx, lines) == Woven(olds, lines)
    ensures BodyEnd(orig, idx, lines) == idx + |olds|
    decreases |lines|
  {
    if lines != [] {
      if lines[0].Add? {
        BodyIsWoven(orig, idx, olds, lines[1..]);
      } else {
        assert orig[idx] == olds[0];
        assert orig[idx + 1..idx + |olds|] == olds[1..];
        BodyIsWoven(orig, idx + 1, olds[1..], lines[1..]);
        assert lines[0].Context? ==> LineOut(orig, idx, lines[0]) == [olds[0]];
      }
    }
  }

  /** When the hunk does fit, that is its new lines. */
  lemma {:induction false} WovenOfOwnLines(lines: seq<DiffLine>)
    ensures Woven(OldOf(lines), lines) == NewOf(lines)
  {
    if lines != [] {
      var rest := lines[1..];
      WovenOfOwnLines(rest);
      assert [] + OldOf(rest) == OldOf(rest) && [] + NewOf(rest) == NewOf(rest);
      assert !lines[0].Add? ==> OldOf(lines)[1..] == OldOf(rest);
    }
  }

  lemma {:induction false} HunkIsWoven(orig: seq<string>, h: Hunk, olds: seq<string>)
    requires 1 <= h.oldStart && |olds| == |OldOf(h.lines)| <= h.oldCount && h.oldStart - 1 + h.oldCount <= |orig|
    requires olds == orig[h.oldStart - 1..h.oldStart - 1 + |olds|]
    ensures BodyStart(orig, h, 0) == h.oldStart - 1 && HunkEnd(orig, h, 0) == h.oldStart - 1 + h.oldCount
    ensures BodyOut(orig, h.oldStart - 1, h.lines) == Woven(olds, h.lines)
  {
    BodyIsWoven(orig, h.oldStart - 1, olds, h.lines);
  }

  /** A hunk inside a file, whose header counts at least the old lines it names: everything before it
      stays, its context is what stands in the file, and old lines it counts without naming are lost. */
  lemma {:induction false} OneHunkExactly(orig: seq<string>, start: nat, count: nat, lines: seq<DiffLine>)
    requires 1 <= start && |OldOf(lines)| <= count && start - 1 + count <= |orig|
    ensures
      var from, named := start - 1, |OldOf(lines)|;
      ApplyFrom(orig, [Hunk(start, count, lines)], 0)
      == orig[..from] + Woven(orig[from..from + named], lines) + orig[from + count..]
  {
    var from, named := start - 1, |OldOf(lines)|;
    var h := Hunk(start, count, lines);
    HunkIsWoven(orig, h, orig[from..from + named]);
    OnlyHunk(orig, h);
    assert Copied(orig, 0, from) == orig[..from] && Copied(orig, from + count, |orig|) == orig[from + count..];
  }

  lemma {:induction false} OnlyHunk(orig: seq<string>, h: Hunk)
    ensures ApplyFrom(orig, [h], 0)
      == HunkOut(orig, h, 0) + Copied(orig, HunkEnd(orig, h, 0), |orig|)
  {
    ApplyFromCons(orig, h, [], 0);
    assert [h] + [] == [h];
  }
}

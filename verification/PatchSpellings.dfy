/** The liberties a unified diff may take (crates/rustykrab-tools/src/apply_patch.rs, lines 42-142): a
    context line without its leading space, a one-line range without its count, a note that the last
    line has no line feed, a path without "b/", lines before a file and before its first hunk.  Every
    such spelling of a diff is parsed to that diff. */
module PatchSpellings {
  import opened Options
  import opened ApplyPatch
  import opened PatchParser
  import opened Decimals
  import L = Lines

  const NO_NEWLINE := "\\ No newline at end of file"

  // ---- One line of a hunk ------------------------------------------------------------------

  /** Nothing in the line says that it is added or removed, or context behind a space, or the note. */
  predicate Unmarked(line: string) {
    line == "" || (line[0] !in {'+', '-', ' '} && line != NO_NEWLINE)
  }

  predicate Spells(line: string, l: DiffLine) {
    match l
    case Add(text) => line == "+" + text
    case Remove(text) => line == "-" + text
    case Context(text) => line == " " + text || (line == text && Unmarked(text))
  }

  lemma {:induction false} BehindMark(mark: string, line: string, text: string)
    requires |mark| == 1
    ensures line == mark + text <==> line != [] && line[0] == mark[0] && line[1..] == text
  {
    if line != [] && line[0] == mark[0] && line[1..] == text {
      assert line == [line[0]] + line[1..];
    }
    if line == mark + text {
      assert line[0] == mark[0] && line[1..] == text;
    }
  }

  /** A line of a hunk reads as `l` exactly when it spells `l`. */
  lemma {:induction false} ReadsExactlyWhen(line: string, l: DiffLine)
    ensures BodyLine(line) == [l] <==> Spells(line, l)
  {
    FirstChar(line, '+');
    FirstChar(line, '-');
    FirstChar(line, ' ');
    BehindMark("+", line, l.text);
    BehindMark("-", line, l.text);
    BehindMark(" ", line, l.text);
    assert NO_NEWLINE[0] == '\\';
  }

  /** Only the note reads as nothing. */
  lemma {:induction false} SkippedExactlyWhen(line: string)
    ensures BodyLine(line) == [] <==> line == NO_NEWLINE
    ensures |BodyLine(line)| <= 1
  {
    FirstChar(line, '+');
    FirstChar(line, '-');
    FirstChar(line, ' ');
    assert NO_NEWLINE[0] == '\\';
  }

  // ---- The lines of a hunk -----------------------------------------------------------------

  /** Each of the lines spells the next of `ls`, or is the note. */
  predicate SpellsBody(lines: seq<string>, ls: seq<DiffLine>) {
    if lines == [] then ls == []
    else
      || (lines[0] == NO_NEWLINE && SpellsBody(lines[1..], ls))
      || (ls != [] && Spells(lines[0], ls[0]) && SpellsBody(lines[1..], ls[1..]))
  }

  lemma {:induction false} Ahead<T>(x: T, xs: seq<T>, ys: seq<T>)
    ensures [x] + xs == ys <==> ys != [] && ys[0] == x && xs == ys[1..]
  {
    if ys != [] && ys[0] == x && xs == ys[1..] {
      assert ys == [ys[0]] + ys[1..];
    }
    if [x] + xs == ys {
      assert ys[1..] == xs;
    }
  }

  /** The lines of a hunk read as `ls` exactly when they spell them. */
  lemma {:induction false} BodyReadsExactlyWhen(lines: seq<string>, ls: seq<DiffLine>)
    ensures Body(lines, UNIFIED) == ls <==> SpellsBody(lines, ls)
  {
    if lines != [] {
      var line := lines[0];
      SkippedExactlyWhen(line);
      if line == NO_NEWLINE {
        BodyReadsExactlyWhen(lines[1..], ls);
        assert [] + Body(lines[1..], UNIFIED) == Body(lines[1..], UNIFIED);
        if ls != [] {
          ReadsExactlyWhen(line, ls[0]);
        }
      } else {
        var l := BodyLine(line)[0];
        assert BodyLine(line) == [l];
        Ahead(l, Body(lines[1..], UNIFIED), ls);
        if ls != [] {
          ReadsExactlyWhen(line, ls[0]);
          BodyReadsExactlyWhen(lines[1..], ls[1..]);
        }
      }
    }
  }

  // ---- Hunks -------------------------------------------------------------------------------

  predicate SpellsRange(range: string, h: Hunk) {
    || range == PrintNat(h.oldStart) + "," + PrintNat(h.oldCount)
    || (h.oldCount == 1 && range == PrintNat(h.oldStart))
  }

  /** The old range, a space, and anything behind it. */
  ghost predicate SpellsHeader(line: string, h: Hunk) {
    exists range, rest :: SpellsRange(range, h) && line == "@@ -" + range + " " + rest
  }

  lemma {:induction false} RangeReads(range: string, h: Hunk)
    requires SpellsRange(range, h) && h.oldStart < USIZE_LIMIT && h.oldCount < USIZE_LIMIT
    ensures ' ' !in range
    ensures
      var comma := L.IndexOf(range, ',');
      if comma < |range|
      then ParseUsize(range[..comma]) == Ok(h.oldStart) && ParseUsize(range[comma + 1..]) == Ok(h.oldCount)
      else ParseUsize(range) == Ok(h.oldStart) && h.oldCount == 1
  {
    var start, count := PrintNat(h.oldStart), PrintNat(h.oldCount);
    ParsePrinted(h.oldStart);
    ParsePrinted(h.oldCount);
    assert ' ' !in start && ' ' !in count && ',' !in start;
    if range == start + "," + count {
      IndexBehindDigits(start, ',', count);
      assert range == start + [','] + count;
    } else {
      L.IndexOfAbsent(range, ',');
    }
  }

  lemma {:induction false} HeaderParts(line: string, range: string, rest: string)
    requires line == "@@ -" + range + " " + rest && ' ' !in range
    ensures IsHunkHeader(line) && !IsFileHeader(line)
    ensures
      var header := TrimMarkers(line);
      header == ("-" + range) + [' '] + rest && header[..L.IndexOf(header, ' ')] == "-" + range
  {
    var header := ("-" + range) + [' '] + rest;
    assert line[3..] == header && line[..3] == "@@ " && line[0] == '@';
    assert header[0] == '-';
    assert TrimMarkers(line) == header;
    IndexBehindDigits("-" + range, ' ', rest);
  }

  lemma {:induction false} HeaderOf(line: string, range: string, rest: string, h: Hunk)
    requires SpellsRange(range, h) && h.oldStart < USIZE_LIMIT && h.oldCount < USIZE_LIMIT
    requires line == "@@ -" + range + " " + rest
    ensures IsHunkHeader(line) && !IsFileHeader(line)
    ensures ParseHunkHeader(line) == Ok((h.oldStart, h.oldCount))
  {
    RangeReads(range, h);
    HeaderParts(line, range, rest);
    RangeOfHeader(line, range);
  }

  /** What a header parses to is what its range does. */
  lemma {:induction false} RangeOfHeader(line: string, range: string)
    requires var header := TrimMarkers(line); header[..L.IndexOf(header, ' ')] == "-" + range
    ensures
      var comma := L.IndexOf(range, ',');
      if comma < |range| then
        var start, count := ParseUsize(range[..comma]), ParseUsize(range[comma + 1..]);
        start.Ok? && count.Ok? ==> ParseHunkHeader(line) == Ok((start.value, count.value))
      else
        var start := ParseUsize(range);
        start.Ok? ==> ParseHunkHeader(line) == Ok((start.value, 1))
  {
    assert ("-" + range)[1..] == range;
  }

  lemma {:induction false} HeaderReads(line: string, h: Hunk)
    requires SpellsHeader(line, h) && h.oldStart < USIZE_LIMIT && h.oldCount < USIZE_LIMIT
    ensures IsHunkHeader(line) && !IsFileHeader(line)
    ensures ParseHunkHeader(line) == Ok((h.oldStart, h.oldCount))
  {
    var range, rest :| SpellsRange(range, h) && line == "@@ -" + range + " " + rest;
    HeaderOf(line, range, rest, h);
  }

  /** No line of the hunk is taken for a header. */
  predicate Plain(lines: seq<string>) {
    forall i | 0 <= i < |lines| :: !IsHunkHeader(lines[i]) && !IsFileHeader(lines[i])
  }

  ghost predicate SpellsHunk(lines: seq<string>, h: Hunk) {
    && lines != [] && SpellsHeader(lines[0], h) && h.oldStart < USIZE_LIMIT && h.oldCount < USIZE_LIMIT
    && Plain(lines[1..]) && SpellsBody(lines[1..], h.lines)
  }

  /** One after the other. */
  ghost predicate SpellsHunks(groups: seq<seq<string>>, hunks: seq<Hunk>) {
    |groups| == |hunks| && forall i :: 0 <= i < |hunks| ==> SpellsHunk(groups[i], hunks[i])
  }

  function Flat(groups: seq<seq<string>>): seq<string> {
    if groups == [] then [] else groups[0] + Flat(groups[1..])
  }

  lemma {:induction false} HunksRead(groups: seq<seq<string>>, hunks: seq<Hunk>)
    requires SpellsHunks(groups, hunks)
    ensures Hunks(Flat(groups), UNIFIED) == Ok(hunks)
    ensures hunks != [] ==> Flat(groups) != [] && IsHunkHeader(Flat(groups)[0])
    ensures forall i | 0 <= i < |Flat(groups)| :: !IsFileHeader(Flat(groups)[i])
  {
    if hunks != [] {
      var first, rest, h := groups[0], Flat(groups[1..]), hunks[0];
      assert SpellsHunk(first, h);
      forall i | 0 <= i < |hunks[1..]| ensures SpellsHunk(groups[1..][i], hunks[1..][i]) {
        assert SpellsHunk(groups[i + 1], hunks[i + 1]);
      }
      HunksRead(groups[1..], hunks[1..]);
      HeaderReads(first[0], h);
      BodyReadsExactlyWhen(first[1..], h.lines);
      FirstHunkReads(h, first[0], first[1..], rest, hunks[1..], UNIFIED);
      assert first == [first[0]] + first[1..] && hunks == [h] + hunks[1..];
    }
  }

  /** Lines before the first hunk are passed over. */
  lemma {:induction false} LeadingLines(before: seq<string>, lines: seq<string>)
    requires Plain(before)
    ensures Hunks(before + lines, UNIFIED) == Hunks(lines, UNIFIED)
  {
    if before == [] {
      assert before + lines == lines;
    } else {
      assert (before + lines)[1..] == before[1..] + lines;
      LeadingLines(before[1..], lines);
    }
  }

  // ---- Files -------------------------------------------------------------------------------

  predicate SpellsPath(plus: string, path: string) {
    plus == "+++ b/" + path || (plus == "+++ " + path && !StartsWith(path, "b/"))
  }

  lemma {:induction false} OldStyle(path: string)
    ensures StartsWith("+++ " + path, "+++ b/") <==> StartsWith(path, "b/")
  {
    var plus := "+++ " + path;
    if StartsWith(plus, "+++ b/") {
      assert path == plus[4..] && plus[..6] == "+++ b/";
      assert path[..2] == plus[..6][4..];
    }
    if StartsWith(path, "b/") {
      assert plus[..6] == "+++ " + path[..2];
    }
  }

  lemma {:induction false} PathReads(plus: string, path: string)
    requires SpellsPath(plus, path)
    ensures StartsWith(plus, "+++ ") && PathOf(plus) == path
  {
    OldStyle(path);
    if plus == "+++ b/" + path {
      assert plus[..4] == "+++ " && plus[..6] == "+++ b/" && plus[6..] == path;
    } else {
      assert plus[..4] == "+++ " && plus[4..] == path;
    }
  }

  /** A file as it may be written: its two headers, any lines before its first hunk, its hunks. */
  datatype Written = Written(minus: string, plus: string, before: seq<string>, groups: seq<seq<string>>) {
    function Lines(): seq<string> {
      [minus, plus] + (before + Flat(groups))
    }
  }

  ghost predicate SpellsFile(w: Written, f: FileDiff) {
    && IsFileHeader(w.minus) && SpellsPath(w.plus, f.path) && Plain(w.before)
    && f.hunks != [] && SpellsHunks(w.groups, f.hunks)
  }

  ghost predicate SpellsFiles(ws: seq<Written>, files: seq<FileDiff>) {
    |ws| == |files| && forall i :: 0 <= i < |files| ==> SpellsFile(ws[i], files[i])
  }

  function AllLines(ws: seq<Written>): seq<string> {
    if ws == [] then [] else ws[0].Lines() + AllLines(ws[1..])
  }

  lemma {:induction false} FilesRead(ws: seq<Written>, files: seq<FileDiff>)
    requires SpellsFiles(ws, files)
    ensures Files(AllLines(ws), UNIFIED) == Ok(files)
    ensures files != [] ==> AllLines(ws) != [] && IsFileHeader(AllLines(ws)[0])
  {
    if files != [] {
      var w, f, rest := ws[0], files[0], AllLines(ws[1..]);
      assert SpellsFile(w, f);
      forall i | 0 <= i < |files[1..]| ensures SpellsFile(ws[1..][i], files[1..][i]) {
        assert SpellsFile(ws[i + 1], files[i + 1]);
      }
      FilesRead(ws[1..], files[1..]);
      FileReads(w, f, rest, files[1..]);
      assert files == [f] + files[1..];
    }
  }

  lemma {:induction false} FileReads(w: Written, f: FileDiff, rest: seq<string>, later: seq<FileDiff>)
    requires SpellsFile(w, f)
    requires Files(rest, UNIFIED) == Ok(later) && (rest == [] || IsFileHeader(rest[0]))
    ensures Files(w.Lines() + rest, UNIFIED) == Ok([f] + later)
  {
    var body := w.before + Flat(w.groups);
    HunksRead(w.groups, f.hunks);
    LeadingLines(w.before, Flat(w.groups));
    PathReads(w.plus, f.path);
    FirstFileReads(f, w.minus, w.plus, body, rest, later, UNIFIED);
  }

  /** Lines before the first file are passed over. */
  lemma {:induction false} LeadingFileLines(before: seq<string>, lines: seq<string>)
    requires forall i | 0 <= i < |before| :: !IsFileHeader(before[i])
    ensures Files(before + lines, UNIFIED) == Files(lines, UNIFIED)
  {
    if before == [] {
      assert before + lines == lines;
    } else {
      assert (before + lines)[1..] == before[1..] + lines;
      LeadingFileLines(before[1..], lines);
    }
  }

  /** Whatever liberties the text of a patch takes, it is parsed to the files it spells. */
  lemma {:induction false} EverySpellingReads(patch: string, before: seq<string>, ws: seq<Written>, files: seq<FileDiff>)
    requires files != [] && SpellsFiles(ws, files)
    requires forall i | 0 <= i < |before| :: !IsFileHeader(before[i])
    requires TextLines(patch) == before + AllLines(ws)
    ensures Parse(patch) == Ok(files)
  {
    FilesRead(ws, files);
    LeadingFileLines(before, AllLines(ws));
  }

  // ---- A blank context line ----------------------------------------------------------------

  /** A blank line in a hunk, without the space in front of it, is context: it stays in the file. */
  lemma {:induction false} BlankLineStays()
    ensures
      var body := Body([" a", "", "-b", "+c"], UNIFIED);
      && body == [Context("a"), Context(""), Remove("b"), Add("c")]
      && ApplyFrom(["a", "", "b"], [Hunk(1, 3, body)], 0) == ["a", "", "c"]
  {
    BlankLineReads();
    BlankLineApplies();
  }

  lemma {:induction false} BlankLineReads()
    ensures Body([" a", "", "-b", "+c"], UNIFIED) == [Context("a"), Context(""), Remove("b"), Add("c")]
  {
    var lines, ls := [" a", "", "-b", "+c"], [Context("a"), Context(""), Remove("b"), Add("c")];
    assert " a" == " " + "a" && "-b" == "-" + "b" && "+c" == "+" + "c";
    assert lines[1..] == ["", "-b", "+c"] && lines[1..][1..] == ["-b", "+c"] && lines[1..][1..][1..] == ["+c"];
    assert ls[1..][1..] == [Remove("b"), Add("c")] && ls[1..][1..][1..] == [Add("c")];
    assert SpellsBody([], []) && SpellsBody(["+c"], [Add("c")]);
    assert SpellsBody(["-b", "+c"], [Remove("b"), Add("c")]);
    BodyReadsExactlyWhen(lines, ls);
  }

  lemma {:induction false} BlankLineApplies()
    ensures ApplyFrom(["a", "", "b"], [Hunk(1, 3, [Context("a"), Context(""), Remove("b"), Add("c")])], 0) == ["a", "", "c"]
  {
    var orig, ls := ["a", "", "b"], [Context("a"), Context(""), Remove("b"), Add("c")];
    assert ls[1..] == [Context(""), Remove("b"), Add("c")] && ls[1..][1..] == [Remove("b"), Add("c")];
    assert OldOf([Remove("b"), Add("c")]) == ["b"] && NewOf([Remove("b"), Add("c")]) == ["c"];
    assert OldOf(ls) == orig && NewOf(ls) == ["a", "", "c"];
    BodyOfScript(orig, 0, 3, ls);
    ApplyFromCons(orig, Hunk(1, 3, ls), [], 0);
  }
}

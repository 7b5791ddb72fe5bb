/** The unified-diff parser of the patch tool (crates/rustykrab-tools/src/apply_patch.rs, lines 42-142).

    The parser walks an index over the lines of a patch.  It is proved against a grammar that
    cuts the lines into files, hunks and body lines; printing well-formed diffs and parsing them
    is then shown to give them back exactly when no removed line starts with two dashes and a space. */
module PatchParser {
  import opened ApplyPatch
  import opened Decimals
  import opened Options
  import L = Lines

  function StartsWith(s: string, prefix: string): bool {
    prefix <= s
  }

  predicate IsFileHeader(line: string) { StartsWith(line, "--- ") }
  predicate IsHunkHeader(line: string) { StartsWith(line, "@@ ") }

  // ---- Numbers -----------------------------------------------------------------------------------

  const USIZE_LIMIT: nat := 0x1_0000_0000_0000_0000

  /** `str::parse::<usize>`: digits, behind at most one plus sign. */
  function ParseUsize(s: string): Result<nat> {
    var digits := if |s| > 1 && s[0] == '+' then s[1..] else s;
    if digits != [] && AllDigits(digits) && Value(digits) < USIZE_LIMIT then Ok(Value(digits))
    else Err(InvalidNumber(s))
  }

  lemma {:induction false} ParsePrinted(n: nat)
    requires n < USIZE_LIMIT
    ensures ParseUsize(PrintNat(n)) == Ok(n)
  {
    PrintedValue(n);
    assert IsDigit(PrintNat(n)[0]);
  }

  // ---- Hunk headers ------------------------------------------------------------------------------

  function TrimMarkers(header: string): string
    decreases |header|
  {
    if StartsWith(header, "@@ ") then TrimMarkers(header[3..]) else header
  }

  /** The old range of a hunk header: start, and count, which defaults to 1. */
  function ParseHunkHeader(line: string): Result<(nat, nat)> {
    var header := TrimMarkers(line);
    var first := header[..L.IndexOf(header, ' ')];
    if first == [] || first[0] != '-' then Err(InvalidHeader(header))
    else
      var range := first[1..];
      var comma := L.IndexOf(range, ',');
      if comma < |range| then
        var start, count := ParseUsize(range[..comma]), ParseUsize(range[comma + 1..]);
        if start.Err? then Err(start.error)
        else if count.Err? then Err(count.error)
        else Ok((start.value, count.value))
      else
        var start := ParseUsize(range);
        if start.Err? then Err(start.error) else Ok((start.value, 1))
  }

  // ---- The grammar -------------------------------------------------------------------------------

  function BodyLine(line: string): seq<DiffLine> {
    if StartsWith(line, "+") then [Add(line[1..])]
    else if StartsWith(line, "-") then [Remove(line[1..])]
    else if StartsWith(line, " ") then [Context(line[1..])]
    else if line == "\\ No newline at end of file" then []
    else [Context(line)]
  }

  /** How the old range is read from a hunk header, and how one line of a hunk is read. */
  datatype Reader = Reader(range: string -> Result<(nat, nat)>, line: string -> seq<DiffLine>)

  const UNIFIED := Reader(ParseHunkHeader, BodyLine)

  function Body(lines: seq<string>, reader: Reader): seq<DiffLine> {
    if lines == [] then [] else reader.line(lines[0]) + Body(lines[1..], reader)
  }

  /** How many lines come before the next header of a file. */
  function FileExtent(lines: seq<string>): (n: nat)
    ensures n <= |lines|
  {
    if lines == [] || IsFileHeader(lines[0]) then 0 else 1 + FileExtent(lines[1..])
  }

  lemma {:induction false} FileExtentIs(lines: seq<string>, i: nat)
    requires i <= FileExtent(lines)
    ensures i < |lines| ==> (IsFileHeader(lines[i]) <==> i == FileExtent(lines))
  {
    if i > 0 {
      FileExtentIs(lines[1..], i - 1);
    }
  }

  /** How many lines come before the next header of a hunk. */
  function HunkExtent(lines: seq<string>): (n: nat)
    ensures n <= |lines|
  {
    if lines == [] || IsHunkHeader(lines[0]) then 0 else 1 + HunkExtent(lines[1..])
  }

  lemma {:induction false} HunkExtentIs(lines: seq<string>, i: nat)
    requires i <= HunkExtent(lines)
    ensures i < |lines| ==> (IsHunkHeader(lines[i]) <==> i == HunkExtent(lines))
  {
    if i > 0 {
      HunkExtentIs(lines[1..], i - 1);
    }
  }

  /** What was read before, in front of what is still to be read. */
  function Prepend<T>(done: seq<T>, rest: Result<seq<T>>): Result<seq<T>> {
    if rest.Err? then rest else Ok(done + rest.value)
  }

  lemma {:induction false} PrependTwice<T>(a: seq<T>, b: seq<T>, rest: Result<seq<T>>)
    ensures Prepend(a, Prepend(b, rest)) == Prepend(a + b, rest)
    ensures Prepend([], rest) == rest
  {
    if rest.Ok? {
      assert a + (b + rest.value) == a + b + rest.value;
      assert [] + rest.value == rest.value;
    }
  }

  lemma {:induction false} PrependNothing<T>(done: seq<T>)
    ensures Prepend(done, Ok([])) == Ok(done)
  {
    assert done + [] == done;
  }

  /** The hunks among the lines of one file. */
  function Hunks(lines: seq<string>, reader: Reader): Result<seq<Hunk>>
    decreases |lines|
  {
    if lines == [] then Ok([])
    else if !IsHunkHeader(lines[0]) then Hunks(lines[1..], reader)
    else
      var r := reader.range(lines[0]);
      if r.Err? then Err(r.error)
      else
        var n := HunkExtent(lines[1..]);
        Prepend([Hunk(r.value.0, r.value.1, Body(lines[1..][..n], reader))], Hunks(lines[1..][n..], reader))
  }

  function PathOf(plusLine: string): string
    requires StartsWith(plusLine, "+++ ")
  {
    if StartsWith(plusLine, "+++ b/") then plusLine[6..] else plusLine[4..]
  }

  predicate OpensFile(lines: seq<string>) {
    |lines| >= 2 && IsFileHeader(lines[0]) && StartsWith(lines[1], "+++ ")
  }

  function Files(lines: seq<string>, reader: Reader): Result<seq<FileDiff>>
    decreases |lines|
  {
    if lines == [] then Ok([])
    else if !OpensFile(lines) then Files(lines[1..], reader)
    else
      var n := FileExtent(lines[2..]);
      var hunks := Hunks(lines[2..][..n], reader);
      if hunks.Err? then Err(hunks.error)
      else Prepend(FileOf(lines[1], hunks.value), Files(lines[2..][n..], reader))
  }

  /** A file without hunks is left out. */
  function FileOf(plusLine: string, hunks: seq<Hunk>): seq<FileDiff>
    requires StartsWith(plusLine, "+++ ")
  {
    if hunks == [] then [] else [FileDiff(PathOf(plusLine), hunks)]
  }

  function Parse(patch: string): Result<seq<FileDiff>> {
    var files := Files(TextLines(patch), UNIFIED);
    if files == Ok([]) then Err(NoFileDiffs) else files
  }

  // ---- The parser --------------------------------------------------------------------------------

  method ParseUnifiedDiff(patch: string) returns (r: Result<seq<FileDiff>>)
    ensures r == Parse(patch)
  {
    r := ParseFiles(TextLines(patch), UNIFIED);
  }

  /** The outer loop, over the files of the patch. */
  method ParseFiles(lines: seq<string>, reader: Reader) returns (r: Result<seq<FileDiff>>)
    ensures r == if Files(lines, reader) == Ok([]) then Err(NoFileDiffs) else Files(lines, reader)
  {
    var fileDiffs: seq<FileDiff> := [];
    var i := 0;
    assert lines[0..] == lines;
    PrependTwice([], [], Files(lines, reader));
    while i < |lines|
      invariant 0 <= i <= |lines|
      invariant Files(lines, reader) == Prepend(fileDiffs, Files(lines[i..], reader))
    {
      ghost var here := lines[i..];
      assert here[0] == lines[i] && here[1..] == lines[i + 1..];
      if IsFileHeader(lines[i]) {
        if i + 1 >= |lines| || !StartsWith(lines[i + 1], "+++ ") {
          assert !OpensFile(here);
          i := i + 1;
          continue;
        }
        assert here[1] == lines[i + 1] && OpensFile(here);
        var path := PathOf(lines[i + 1]);
        assert here[2..] == lines[i + 2..];
        ghost var before := fileDiffs;
        ghost var plus := lines[i + 1];
        var hunks, next := ParseHunks(lines, i + 2, reader);
        if hunks.Err? {
          return Err(hunks.error);
        }
        assert here[2..][FileExtent(here[2..])..] == lines[next..];
        i := next;
        if hunks.value != [] {
          fileDiffs := fileDiffs + [FileDiff(path, hunks.value)];
        }
        assert fileDiffs == before + FileOf(plus, hunks.value);
        PrependTwice(before, FileOf(plus, hunks.value), Files(lines[i..], reader));
      } else {
        assert !OpensFile(here);
        i := i + 1;
      }
    }
    assert lines[i..] == [];
    PrependNothing(fileDiffs);
    if fileDiffs == [] {
      return Err(NoFileDiffs);
    }
    r := Ok(fileDiffs);
  }

  /** The loop over the hunks of one file, up to the next file header. */
  method ParseHunks(lines: seq<string>, from: nat, reader: Reader) returns (r: Result<seq<Hunk>>, i: nat)
    requires from <= |lines|
    ensures r == Hunks(lines[from..][..FileExtent(lines[from..])], reader)
    ensures i <= |lines| && (r.Ok? ==> i == from + FileExtent(lines[from..]))
  {
    ghost var end := from + FileExtent(lines[from..]);
    assert lines[from..][..end - from] == lines[from..end];
    var hunks: seq<Hunk> := [];
    PrependTwice([], [], Hunks(lines[from..end], reader));
    i := from;
    FileLineAt(lines, from, end, i);
    while i < |lines| && !IsFileHeader(lines[i])
      invariant from <= i <= end
      invariant i < |lines| ==> (IsFileHeader(lines[i]) <==> i == end)
      invariant Hunks(lines[from..end], reader) == Prepend(hunks, Hunks(lines[i..end], reader))
    {
      if IsHunkHeader(lines[i]) {
        ghost var at := i;
        var hunk, next := ParseHunk(lines, i, reader, from, end);
        if hunk.Err? {
          return Err(hunk.error), i;
        }
        PrependTwice(hunks, [hunk.value], Hunks(lines[next..end], reader));
        hunks := hunks + [hunk.value];
        i := next;
      } else {
        SkipLine(lines, i, end, reader);
        i := i + 1;
      }
      FileLineAt(lines, from, end, i);
    }
    assert lines[i..end] == [];
    PrependNothing(hunks);
    r := Ok(hunks);
  }

  lemma {:induction false} SkipLine(lines: seq<string>, i: nat, end: nat, reader: Reader)
    requires i < end <= |lines| && !IsHunkHeader(lines[i])
    ensures Hunks(lines[i..end], reader) == Hunks(lines[i + 1..end], reader)
  {
    assert lines[i..end][1..] == lines[i + 1..end];
  }

  /** One hunk: its header, then its lines. */
  method ParseHunk(lines: seq<string>, i: nat, reader: Reader, ghost first: nat, ghost end: nat) returns (r: Result<Hunk>, next: nat)
    requires first <= i < end <= |lines| && end == first + FileExtent(lines[first..])
    requires IsHunkHeader(lines[i])
    ensures i < next <= end
    ensures Hunks(lines[i..end], reader) == if r.Err? then Err(r.error) else Prepend([r.value], Hunks(lines[next..end], reader))
  {
    var read := reader.range(lines[i]);
    if read.Err? {
      HunksFail(lines, i, end, reader);
      return Err(read.error), i + 1;
    }
    var body;
    body, next := ParseBody(lines, i + 1, reader, first, end);
    var hunk := Hunk(read.value.0, read.value.1, body);
    HunksUnfold(lines, i, end, next, hunk, reader);
    r := Ok(hunk);
  }

  lemma {:induction false} HunksFail(lines: seq<string>, i: nat, end: nat, reader: Reader)
    requires i < end <= |lines| && IsHunkHeader(lines[i]) && reader.range(lines[i]).Err?
    ensures Hunks(lines[i..end], reader) == Err(reader.range(lines[i]).error)
  {
    assert lines[i..end][0] == lines[i];
  }

  lemma {:induction false} HunksUnfold(lines: seq<string>, i: nat, end: nat, next: nat, hunk: Hunk, reader: Reader)
    requires i < end <= |lines| && IsHunkHeader(lines[i]) && next == i + 1 + HunkExtent(lines[i + 1..end])
    requires reader.range(lines[i]) == Ok((hunk.oldStart, hunk.oldCount)) && hunk.lines == Body(lines[i + 1..next], reader)
    ensures Hunks(lines[i..end], reader) == Prepend([hunk], Hunks(lines[next..end], reader))
  {
    var later := lines[i + 1..end];
    var n := HunkExtent(later);
    HunksOfHeader(lines[i], later, n, reader);
    assert lines[i..end] == [lines[i]] + later;
    assert later[..n] == lines[i + 1..next] && later[n..] == lines[next..end];
  }

  lemma {:induction false} HunksOfHeader(header: string, later: seq<string>, n: nat, reader: Reader)
    requires IsHunkHeader(header) && n == HunkExtent(later)
    ensures var read := reader.range(header);
            Hunks([header] + later, reader)
            == if read.Err? then Err(read.error)
               else Prepend([Hunk(read.value.0, read.value.1, Body(later[..n], reader))], Hunks(later[n..], reader))
  {
    assert ([header] + later)[1..] == later;
  }

  lemma {:induction false} FileLineAt(lines: seq<string>, from: nat, end: nat, i: nat)
    requires from <= i <= end <= |lines| && end == from + FileExtent(lines[from..])
    ensures i < |lines| ==> (IsFileHeader(lines[i]) <==> i == end)
  {
    FileExtentIs(lines[from..], i - from);
    assert i < |lines| ==> lines[from..][i - from] == lines[i];
  }

  lemma {:induction false} HunkLineAt(lines: seq<string>, from: nat, end: nat, i: nat)
    requires from <= end <= |lines| && from <= i <= from + HunkExtent(lines[from..end])
    ensures i < end ==> (IsHunkHeader(lines[i]) <==> i == from + HunkExtent(lines[from..end]))
  {
    HunkExtentIs(lines[from..end], i - from);
    assert i < end ==> lines[from..end][i - from] == lines[i];
  }

  lemma {:induction false} SliceSnoc<T>(xs: seq<T>, from: nat, i: nat)
    requires from <= i < |xs|
    ensures xs[from..i + 1] == xs[from..i] + [xs[i]]
  {
  }

  /** The loop over the lines of one hunk; the file's lines start at `first` and stop before `end`. */
  method ParseBody(lines: seq<string>, from: nat, reader: Reader, ghost first: nat, ghost end: nat) returns (body: seq<DiffLine>, i: nat)
    requires first <= from <= end <= |lines| && end == first + FileExtent(lines[first..])
    ensures i == from + HunkExtent(lines[from..end])
    ensures body == Body(lines[from..i], reader)
  {
    ghost var stop := from + HunkExtent(lines[from..end]);
    i, body := from, [];
    FileLineAt(lines, first, end, i);
    HunkLineAt(lines, from, end, i);
    while i < |lines| && !IsHunkHeader(lines[i]) && !IsFileHeader(lines[i])
      invariant from <= i <= stop
      invariant i < |lines| ==> (IsFileHeader(lines[i]) <==> i == end)
      invariant i < end ==> (IsHunkHeader(lines[i]) <==> i == stop)
      invariant body == Body(lines[from..i], reader)
    {
      SliceSnoc(lines, from, i);
      BodySnoc(lines[from..i], lines[i], reader);
      body := body + reader.line(lines[i]);
      i := i + 1;
      FileLineAt(lines, first, end, i);
      HunkLineAt(lines, from, end, i);
    }
  }

  lemma {:induction false} BodySnoc(lines: seq<string>, line: string, reader: Reader)
    ensures Body(lines + [line], reader) == Body(lines, reader) + reader.line(line)
  {
    if lines == [] {
      assert (lines + [line])[1..] == [];
    } else {
      assert (lines + [line])[1..] == lines[1..] + [line];
      BodySnoc(lines[1..], line, reader);
    }
  }

  // ---- Printing ----------------------------------------------------------------------------------

  function PrintLine(l: DiffLine): string {
    match l
    case Context(t) => " " + t
    case Add(t) => "+" + t
    case Remove(t) => "-" + t
  }

  function PrintLines(ls: seq<DiffLine>): (r: seq<string>)
    ensures |r| == |ls|
    ensures forall i | 0 <= i < |ls| :: r[i] == PrintLine(ls[i])
  {
    seq(|ls|, i requires 0 <= i < |ls| => PrintLine(ls[i]))
  }

  function Range(start: nat, count: nat): string {
    PrintNat(start) + "," + PrintNat(count)
  }

  /** The parser never reads the new range, so any numbers may stand there. */
  function PrintHeader(h: Hunk, newStart: nat, newCount: nat): string {
    "@@ " + ("-" + Range(h.oldStart, h.oldCount) + (" +" + Range(newStart, newCount) + " @@"))
  }

  function PrintHunks(hunks: seq<Hunk>, news: nat -> (nat, nat)): seq<string> {
    if hunks == [] then []
    else
      var (start, count) := news(hunks[0].oldStart);
      [PrintHeader(hunks[0], start, count)] + PrintLines(hunks[0].lines) + PrintHunks(hunks[1..], news)
  }

  function PrintFiles(files: seq<FileDiff>, news: nat -> (nat, nat)): seq<string> {
    if files == [] then []
    else
      ["--- a/" + files[0].path, "+++ b/" + files[0].path]
      + PrintHunks(files[0].hunks, news) + PrintFiles(files[1..], news)
  }

  function Print(files: seq<FileDiff>, news: nat -> (nat, nat)): string {
    L.Join(PrintFiles(files, news), '\n') + "\n"
  }

  predicate Printable(text: string) {
    L.IsLine(text, '\n', '\r')
  }

  predicate WellFormedHunk(h: Hunk) {
    && h.oldStart < USIZE_LIMIT && h.oldCount < USIZE_LIMIT
    && forall i | 0 <= i < |h.lines| :: Printable(h.lines[i].text)
  }

  predicate WellFormedFile(f: FileDiff) {
    && Printable(f.path) && f.hunks != []
    && forall i | 0 <= i < |f.hunks| :: WellFormedHunk(f.hunks[i])
  }

  predicate WellFormed(files: seq<FileDiff>) {
    files != [] && forall i | 0 <= i < |files| :: WellFormedFile(files[i])
  }

  /** A removed line that prints as a file header. */
  predicate LooksLikeHeader(l: DiffLine) {
    l.Remove? && StartsWith(l.text, "-- ")
  }

  predicate ClearHunk(h: Hunk) {
    forall i | 0 <= i < |h.lines| :: !LooksLikeHeader(h.lines[i])
  }

  predicate ClearHunks(hunks: seq<Hunk>) {
    forall i | 0 <= i < |hunks| :: ClearHunk(hunks[i])
  }

  predicate Clear(files: seq<FileDiff>) {
    forall i | 0 <= i < |files| :: ClearHunks(files[i].hunks)
  }

  // ---- Round trip --------------------------------------------------------------------------------

  lemma {:induction false} IndexBehindDigits(a: string, sep: char, b: string)
    requires sep !in a
    ensures L.IndexOf(a + [sep] + b, sep) == |a|
    ensures (a + [sep] + b)[..|a|] == a && (a + [sep] + b)[|a| + 1..] == b
  {
    L.IndexOfPrefix(a, sep, b);
  }

  lemma {:induction false} HeaderRoundTrip(h: Hunk, newStart: nat, newCount: nat)
    requires h.oldStart < USIZE_LIMIT && h.oldCount < USIZE_LIMIT
    ensures ParseHunkHeader(PrintHeader(h, newStart, newCount)) == Ok((h.oldStart, h.oldCount))
    ensures IsHunkHeader(PrintHeader(h, newStart, newCount)) && !IsFileHeader(PrintHeader(h, newStart, newCount))
  {
    var line := PrintHeader(h, newStart, newCount);
    var range := Range(h.oldStart, h.oldCount);
    var header := "-" + range + (" +" + Range(newStart, newCount) + " @@");
    var tail := "+" + Range(newStart, newCount) + " @@";
    assert line[3..] == header;
    assert line[0] == '@';
    assert header[0] == '-';
    assert TrimMarkers(line) == header;
    assert header == ("-" + range) + [' '] + tail;
    assert ' ' !in PrintNat(h.oldStart) && ' ' !in PrintNat(h.oldCount) && ',' !in PrintNat(h.oldStart);
    IndexBehindDigits("-" + range, ' ', tail);
    assert ("-" + range)[1..] == range;
    IndexBehindDigits(PrintNat(h.oldStart), ',', PrintNat(h.oldCount));
    assert range == PrintNat(h.oldStart) + [','] + PrintNat(h.oldCount);
    ParsePrinted(h.oldStart);
    ParsePrinted(h.oldCount);
  }

  lemma {:induction false} FirstChar(s: string, c: char)
    ensures StartsWith(s, [c]) <==> s != [] && s[0] == c
  {
    if s != [] && s[0] == c {
      assert s[..1] == [c];
    }
    if StartsWith(s, [c]) {
      assert [c][0] == s[0];
    }
  }

  lemma {:induction false} LineRoundTrip(l: DiffLine)
    ensures BodyLine(PrintLine(l)) == [l]
  {
    assert PrintLine(l)[1..] == l.text;
    FirstChar(PrintLine(l), '+');
    FirstChar(PrintLine(l), '-');
    FirstChar(PrintLine(l), ' ');
  }

  lemma {:induction false} PrintedCons(l: DiffLine, rest: seq<DiffLine>)
    ensures Body(PrintLines([l] + rest), UNIFIED) == BodyLine(PrintLine(l)) + Body(PrintLines(rest), UNIFIED)
  {
    var lines := [PrintLine(l)] + PrintLines(rest);
    assert PrintLines([l] + rest) == lines;
    assert lines[1..] == PrintLines(rest);
  }

  lemma {:induction false} BodyRoundTrip(ls: seq<DiffLine>)
    ensures Body(PrintLines(ls), UNIFIED) == ls
  {
    if ls != [] {
      assert ls == [ls[0]] + ls[1..];
      LineRoundTrip(ls[0]);
      BodyRoundTrip(ls[1..]);
      PrintedCons(ls[0], ls[1..]);
    }
  }

  lemma {:induction false} PrintedLineIsNoHeader(l: DiffLine)
    ensures !IsHunkHeader(PrintLine(l))
    ensures IsFileHeader(PrintLine(l)) <==> LooksLikeHeader(l)
  {
    assert PrintLine(l)[1..] == l.text && PrintLine(l)[0] != '@';
    if IsFileHeader(PrintLine(l)) {
      assert PrintLine(l)[..4] == "--- ";
      assert l.text[..3] == "-- ";
    }
    if LooksLikeHeader(l) {
      assert PrintLine(l)[..4] == "-" + l.text[..3];
    }
  }

  lemma {:induction false} ExtentBehind(a: seq<string>, b: seq<string>)
    requires forall i | 0 <= i < |a| :: !IsHunkHeader(a[i])
    requires b == [] || IsHunkHeader(b[0])
    ensures HunkExtent(a + b) == |a|
  {
    if a == [] {
      assert a + b == b;
    } else {
      assert (a + b)[1..] == a[1..] + b;
      ExtentBehind(a[1..], b);
    }
  }

  lemma {:induction false} FileExtentBehind(a: seq<string>, b: seq<string>)
    requires forall i | 0 <= i < |a| :: !IsFileHeader(a[i])
    requires b == [] || IsFileHeader(b[0])
    ensures FileExtent(a + b) == |a|
  {
    if a == [] {
      assert a + b == b;
    } else {
      assert (a + b)[1..] == a[1..] + b;
      FileExtentBehind(a[1..], b);
    }
  }

  lemma {:induction false} HunksCons(header: string, body: seq<string>, rest: seq<string>, reader: Reader)
    requires IsHunkHeader(header)
    requires forall i | 0 <= i < |body| :: !IsHunkHeader(body[i])
    requires rest == [] || IsHunkHeader(rest[0])
    ensures var read := reader.range(header);
            Hunks([header] + body + rest, reader)
            == if read.Err? then Err(read.error)
               else Prepend([Hunk(read.value.0, read.value.1, Body(body, reader))], Hunks(rest, reader))
  {
    var lines := [header] + body + rest;
    assert lines[1..] == body + rest;
    ExtentBehind(body, rest);
    assert (body + rest)[..|body|] == body && (body + rest)[|body|..] == rest;
  }

  lemma {:induction false} FirstHunkReads(h: Hunk, header: string, body: seq<string>, rest: seq<string>,
        later: seq<Hunk>, reader: Reader)
    requires IsHunkHeader(header) && reader.range(header) == Ok((h.oldStart, h.oldCount))
    requires forall i | 0 <= i < |body| :: !IsHunkHeader(body[i])
    requires rest == [] || IsHunkHeader(rest[0])
    requires Body(body, reader) == h.lines && Hunks(rest, reader) == Ok(later)
    ensures Hunks([header] + body + rest, reader) == Ok([h] + later)
  {
    HunksCons(header, body, rest, reader);
  }

  lemma {:induction false} PrintedLinesAreNoHeaders(lines: seq<DiffLine>)
    ensures forall i | 0 <= i < |lines| :: !IsHunkHeader(PrintLines(lines)[i])
  {
    forall i | 0 <= i < |lines| ensures !IsHunkHeader(PrintLines(lines)[i]) {
      PrintedLineIsNoHeader(lines[i]);
    }
  }

  lemma {:induction false} HunksRoundTrip(hunks: seq<Hunk>, news: nat -> (nat, nat))
    requires forall i | 0 <= i < |hunks| :: WellFormedHunk(hunks[i])
    ensures Hunks(PrintHunks(hunks, news), UNIFIED) == Ok(hunks)
    ensures hunks != [] ==> PrintHunks(hunks, news) != [] && IsHunkHeader(PrintHunks(hunks, news)[0])
  {
    if hunks != [] {
      var h := hunks[0];
      var (start, count) := news(h.oldStart);
      HunksRoundTrip(hunks[1..], news);
      HeaderRoundTrip(h, start, count);
      PrintedLinesAreNoHeaders(h.lines);
      BodyRoundTrip(h.lines);
      FirstHunkReads(h, PrintHeader(h, start, count), PrintLines(h.lines), PrintHunks(hunks[1..], news), hunks[1..], UNIFIED);
      assert [h] + hunks[1..] == hunks;
    }
  }

  lemma {:induction false} PrintedHunksStayInFile(hunks: seq<Hunk>, news: nat -> (nat, nat))
    requires forall i | 0 <= i < |hunks| :: WellFormedHunk(hunks[i])
    requires ClearHunks(hunks)
    ensures forall i | 0 <= i < |PrintHunks(hunks, news)| :: !IsFileHeader(PrintHunks(hunks, news)[i])
  {
    if hunks != [] {
      var h := hunks[0];
      var (start, count) := news(h.oldStart);
      PrintedHunksStayInFile(hunks[1..], news);
      HeaderRoundTrip(h, start, count);
      assert ClearHunk(hunks[0]);
      forall i | 0 <= i < |h.lines| ensures !IsFileHeader(PrintLines(h.lines)[i]) {
        PrintedLineIsNoHeader(h.lines[i]);
      }
    }
  }

  lemma {:induction false} FilesCons(minus: string, plus: string, body: seq<string>, rest: seq<string>, reader: Reader)
    requires IsFileHeader(minus) && StartsWith(plus, "+++ ")
    requires forall i | 0 <= i < |body| :: !IsFileHeader(body[i])
    requires rest == [] || IsFileHeader(rest[0])
    ensures Files([minus, plus] + body + rest, reader)
            == if Hunks(body, reader).Err? then Err(Hunks(body, reader).error)
               else Prepend(FileOf(plus, Hunks(body, reader).value), Files(rest, reader))
  {
    var lines := [minus, plus] + body + rest;
    assert lines[2..] == body + rest;
    FileExtentBehind(body, rest);
    assert (body + rest)[..|body|] == body && (body + rest)[|body|..] == rest;
  }

  lemma {:induction false} FirstFileReads(f: FileDiff, minus: string, plus: string, body: seq<string>,
        rest: seq<string>, later: seq<FileDiff>,
                       reader: Reader)
    requires IsFileHeader(minus) && StartsWith(plus, "+++ ") && PathOf(plus) == f.path
    requires forall i | 0 <= i < |body| :: !IsFileHeader(body[i])
    requires rest == [] || IsFileHeader(rest[0])
    requires f.hunks != [] && Hunks(body, reader) == Ok(f.hunks) && Files(rest, reader) == Ok(later)
    ensures Files([minus, plus] + body + rest, reader) == Ok([f] + later)
  {
    FilesCons(minus, plus, body, rest, reader);
  }

  lemma {:induction false} FilesRoundTrip(files: seq<FileDiff>, news: nat -> (nat, nat))
    requires forall i | 0 <= i < |files| :: WellFormedFile(files[i])
    requires Clear(files)
    ensures Files(PrintFiles(files, news), UNIFIED) == Ok(files)
    ensures files != [] ==> PrintFiles(files, news) != [] && IsFileHeader(PrintFiles(files, news)[0])
  {
    if files != [] {
      var f := files[0];
      assert WellFormedFile(f) && ClearHunks(f.hunks);
      FilesRoundTrip(files[1..], news);
      HunksRoundTrip(f.hunks, news);
      PrintedHunksStayInFile(f.hunks, news);
      var minus, plus := "--- a/" + f.path, "+++ b/" + f.path;
      assert minus[..4] == "--- " && plus[..4] == "+++ " && plus[..6] == "+++ b/" && plus[6..] == f.path;
      FirstFileReads(f, minus, plus, PrintHunks(f.hunks, news), PrintFiles(files[1..], news), files[1..], UNIFIED);
      assert [f] + files[1..] == files;
    }
  }

  // ---- Printed patches as text -------------------------------------------------------------------

  lemma {:induction false} DigitsPrintable(n: nat)
    ensures '\n' !in PrintNat(n) && '\r' !in PrintNat(n)
  {
  }

  lemma {:induction false} PrintedHunksPrintable(hunks: seq<Hunk>, news: nat -> (nat, nat))
    requires forall i | 0 <= i < |hunks| :: WellFormedHunk(hunks[i])
    ensures forall i | 0 <= i < |PrintHunks(hunks, news)| :: Printable(PrintHunks(hunks, news)[i])
  {
    if hunks != [] {
      var h := hunks[0];
      var (start, count) := news(h.oldStart);
      PrintedHunksPrintable(hunks[1..], news);
      DigitsPrintable(h.oldStart);
      DigitsPrintable(h.oldCount);
      DigitsPrintable(start);
      DigitsPrintable(count);
      assert Printable(PrintHeader(h, start, count));
      assert WellFormedHunk(h);
    }
  }

  lemma {:induction false} PrintedFilesPrintable(files: seq<FileDiff>, news: nat -> (nat, nat))
    requires forall i | 0 <= i < |files| :: WellFormedFile(files[i])
    ensures forall i | 0 <= i < |PrintFiles(files, news)| :: Printable(PrintFiles(files, news)[i])
  {
    if files != [] {
      assert WellFormedFile(files[0]);
      PrintedHunksPrintable(files[0].hunks, news);
      PrintedFilesPrintable(files[1..], news);
    }
  }

  lemma {:induction false} PrintedTextLines(files: seq<FileDiff>, news: nat -> (nat, nat))
    requires WellFormed(files)
    ensures TextLines(Print(files, news)) == PrintFiles(files, news)
  {
    PrintedFilesPrintable(files, news);
    var lines := PrintFiles(files, news);
    forall i | 0 <= i < |lines| ensures L.IsLine(lines[i], '\n', '\r') {
      assert Printable(lines[i]);
    }
    L.LinesOfTerminated(lines, '\n', '\r');
  }

  lemma {:induction false} BodyAlwaysClear(lines: seq<string>)
    requires forall i | 0 <= i < |lines| :: !IsFileHeader(lines[i])
    ensures forall i | 0 <= i < |Body(lines, UNIFIED)| :: !LooksLikeHeader(Body(lines, UNIFIED)[i])
  {
    if lines != [] {
      BodyAlwaysClear(lines[1..]);
      var line := lines[0];
      if StartsWith(line, "-") {
        assert PrintLine(Remove(line[1..])) == line;
        PrintedLineIsNoHeader(Remove(line[1..]));
      }
    }
  }

  lemma {:induction false} HunksAlwaysClear(lines: seq<string>)
    requires forall i | 0 <= i < |lines| :: !IsFileHeader(lines[i])
    ensures Hunks(lines, UNIFIED).Ok? ==> ClearHunks(Hunks(lines, UNIFIED).value)
    decreases |lines|
  {
    if lines != [] {
      if IsHunkHeader(lines[0]) {
        var n := HunkExtent(lines[1..]);
        BodyAlwaysClear(lines[1..][..n]);
        HunksAlwaysClear(lines[1..][n..]);
      } else {
        HunksAlwaysClear(lines[1..]);
      }
    }
  }

  /** Whatever the patch, no parsed hunk removes a line that starts with two dashes and a space. */
  lemma {:induction false} FilesAlwaysClear(lines: seq<string>)
    ensures Files(lines, UNIFIED).Ok? ==> Clear(Files(lines, UNIFIED).value)
    decreases |lines|
  {
    if lines != [] {
      if OpensFile(lines) {
        var n := FileExtent(lines[2..]);
        forall i | 0 <= i < n ensures !IsFileHeader(lines[2..][i]) {
          FileExtentIs(lines[2..], i);
        }
        HunksAlwaysClear(lines[2..][..n]);
        FilesAlwaysClear(lines[2..][n..]);
      } else {
        FilesAlwaysClear(lines[1..]);
      }
    }
  }

  /** Printing well-formed diffs and parsing the text gives them back exactly when no removed
      line prints as a file header. */
  lemma {:induction false} RoundTripExactlyWhen(files: seq<FileDiff>, news: nat -> (nat, nat))
    requires WellFormed(files)
    ensures Parse(Print(files, news)) == Ok(files) <==> Clear(files)
  {
    PrintedTextLines(files, news);
    FilesAlwaysClear(PrintFiles(files, news));
    if Clear(files) {
      FilesRoundTrip(files, news);
    }
  }

  /** Such a diff: it removes a comment line of SQL. */
  lemma {:induction false} RemovedCommentIsLost(news: nat -> (nat, nat))
    ensures
      var files := [FileDiff("f.sql", [Hunk(1, 1, [Remove("-- x")])])];
      WellFormed(files) && Parse(Print(files, news)) != Ok(files)
  {
    var line := Remove("-- x");
    var hunk := Hunk(1, 1, [line]);
    var files := [FileDiff("f.sql", [hunk])];
    assert hunk.lines[0] == line && LooksLikeHeader(line);
    assert files[0].hunks[0] == hunk;
    RoundTripExactlyWhen(files, news);
  }
}

/** Reading one file's unified diff, and the writing of it the reader undoes. */
module UnifiedDiff {
  import opened Options
  import opened Text

  datatype LineKind = LineAdded | LineRemoved | LineContext

  datatype DiffLine = DiffLine(kind: LineKind, content: string)

  datatype Hunk = Hunk(oldStart: int, oldLines: int, newStart: int, newLines: int, lines: seq<DiffLine>)

  datatype Change = ChangeModified | ChangeAdded | ChangeRemoved

  datatype SourceDiff = SourceDiff(change: Change, binary: bool, hunks: seq<Hunk>)

  /** Why a diff is refused: a hunk header that cannot be read, or not exactly one file. */
  datatype Result = Ok(diff: SourceDiff) | Unreadable | NotOneFile(files: nat)

  // ---------------------------------------------------------------- reading

  /** One side of a hunk header: a start, and a count unless it is 1. */
  function ParseHunkRange(text: string): Option<(int, int)> {
    var (startText, linesText, hasCount) := Cut(text, ",");
    match Atoi(startText)
    case None => None
    case Some(start) =>
      if !hasCount then Some((start, 1))
      else
        match Atoi(linesText)
        case None => None
        case Some(lines) => Some((start, lines))
  }

  function ParseHunkHeader(line: string): Option<Hunk> {
    var (ranges, _, closed) := Cut(TrimPrefix(line, "@@ "), " @@");
    if !closed then None
    else
      var (oldRange, newRange, both) := Cut(ranges, " +");
      if !both || !HasPrefix(oldRange, "-") then None
      else
        match (ParseHunkRange(TrimPrefix(oldRange, "-")), ParseHunkRange(newRange))
        case (Some(o), Some(n)) => Some(Hunk(o.0, o.1, n.0, n.1, []))
        case _ => None
  }

  function ParseDiffLine(line: string): DiffLine {
    if HasPrefix(line, "+") then DiffLine(LineAdded, line[1..])
    else if HasPrefix(line, "-") then DiffLine(LineRemoved, line[1..])
    else DiffLine(LineContext, TrimPrefix(line, " "))
  }

  /** Where the reader is: the diff so far, the files seen, and whether it is inside a hunk. */
  datatype Reading = Reading(diff: SourceDiff, files: nat, inHunk: bool)

  const NOTHING_READ := Reading(SourceDiff(ChangeModified, false, []), 0, false)

  function AddLine(hunks: seq<Hunk>, line: DiffLine): (r: seq<Hunk>)
    requires hunks != []
    ensures |r| == |hunks|
  {
    var last := hunks[|hunks| - 1];
    hunks[..|hunks| - 1] + [last.(lines := last.lines + [line])]
  }

  /** What one line does; None when it is a hunk header that cannot be read. Only column zero is
      read as structure. */
  function ReadLine(r: Reading, line: string): Option<Reading>
    requires r.inHunk ==> r.diff.hunks != []
  {
    if HasPrefix(line, "diff --git ") then Some(r.(files := r.files + 1, inHunk := false))
    else if HasPrefix(line, "@@") then
      match ParseHunkHeader(line)
      case None => None
      case Some(hunk) => Some(r.(diff := r.diff.(hunks := r.diff.hunks + [hunk]), inHunk := true))
    else if r.inHunk then
      if HasPrefix(line, "\\") then Some(r)
      else Some(r.(diff := r.diff.(hunks := AddLine(r.diff.hunks, ParseDiffLine(line)))))
    else if HasPrefix(line, "new file mode ") then Some(r.(diff := r.diff.(change := ChangeAdded)))
    else if HasPrefix(line, "deleted file mode ") then Some(r.(diff := r.diff.(change := ChangeRemoved)))
    else if HasPrefix(line, "Binary files ") then Some(r.(diff := r.diff.(binary := true)))
    else Some(r)
  }

  predicate Sensible(r: Reading) { r.inHunk ==> r.diff.hunks != [] }

  function ReadLines(r: Reading, lines: seq<string>): (end: Option<Reading>)
    requires Sensible(r)
    ensures end.Some? ==> Sensible(end.value)
    decreases |lines|
  {
    if lines == [] then Some(r)
    else match ReadLine(r, lines[0])
      case None => None
      case Some(next) => ReadLines(next, lines[1..])
  }

  function Answer(end: Option<Reading>): Result {
    match end
    case None => Unreadable
    case Some(r) => if r.files == 1 then Ok(r.diff) else NotOneFile(r.files)
  }

  function Parse(out: string): Result {
    Answer(ReadLines(NOTHING_READ, Split(TrimSuffixChar(out, '\n'), '\n')))
  }

  /** The reader as it runs, line by line. It is refused exactly when some line that starts as a hunk
      header does is none, or when it is not the diff of one file; a line of the first kind counts
      wherever it stands, and one that starts as a file's does. */
  method ParseDiff(out: string) returns (result: Result)
    ensures result == Parse(out)
    ensures var lines := Split(TrimSuffixChar(out, '\n'), '\n');
            && (result.Unreadable? <==> SomeUnreadable(lines))
            && (result.Ok? ==> FilesIn(lines) == 1)
            && (result.NotOneFile? ==> result.files == FilesIn(lines) != 1)
  {
    hide SomeUnreadable, FilesIn, ParseHunkHeader, ParseDiffLine;
    ReadExactly(NOTHING_READ, Split(TrimSuffixChar(out, '\n'), '\n'));
    var lines := Split(TrimSuffixChar(out, '\n'), '\n');
    var diff := SourceDiff(ChangeModified, false, []);
    var files: nat, inHunk := 0, false;
    for i := 0 to |lines|
      invariant Sensible(Reading(diff, files, inHunk))
      invariant ReadLines(NOTHING_READ, lines) == ReadLines(Reading(diff, files, inHunk), lines[i..])
    {
      var line := lines[i];
      assert lines[i..][0] == line && lines[i..][1..] == lines[i + 1..];
      if HasPrefix(line, "diff --git ") {
        files := files + 1;
        inHunk := false;
      } else if HasPrefix(line, "@@") {
        var hunk := ParseHunkHeader(line);
        if hunk.None? {
          return Unreadable;
        }
        diff := diff.(hunks := diff.hunks + [hunk.value]);
        inHunk := true;
      } else if inHunk {
        if HasPrefix(line, "\\") {
          continue;
        }
        diff := diff.(hunks := AddLine(diff.hunks, ParseDiffLine(line)));
      } else if HasPrefix(line, "new file mode ") {
        diff := diff.(change := ChangeAdded);
      } else if HasPrefix(line, "deleted file mode ") {
        diff := diff.(change := ChangeRemoved);
      } else if HasPrefix(line, "Binary files ") {
        diff := diff.(binary := true);
      }
    }
    if files != 1 {
      return NotOneFile(files);
    }
    return Ok(diff);
  }

  // ---------------------------------------------------------------- what is refused

  /** How many lines start as the first line of a file's diff does. */
  function FilesIn(lines: seq<string>): nat {
    if lines == [] then 0 else (if HasPrefix(lines[0], "diff --git ") then 1 else 0) + FilesIn(lines[1..])
  }

  ghost predicate SomeUnreadable(lines: seq<string>) {
    exists i :: 0 <= i < |lines| && HasPrefix(lines[i], "@@") && ParseHunkHeader(lines[i]).None?
  }

  lemma {:induction false} ReadExactly(r: Reading, lines: seq<string>)
    requires Sensible(r)
    ensures ReadLines(r, lines).None? <==> SomeUnreadable(lines)
    ensures ReadLines(r, lines).Some? ==> ReadLines(r, lines).value.files == r.files + FilesIn(lines)
    decreases |lines|
  {
    hide ParseHunkHeader, ParseDiffLine, ReadLine;
    if lines != [] {
      LineExactly(r, lines[0]);
      FirstOrLater(lines);
      if ReadLine(r, lines[0]).Some? {
        ReadExactly(ReadLine(r, lines[0]).value, lines[1..]);
      }
    }
  }

  lemma FirstOrLater(lines: seq<string>)
    requires lines != []
    ensures SomeUnreadable(lines) <==> (HasPrefix(lines[0], "@@") && ParseHunkHeader(lines[0]).None?) || SomeUnreadable(lines[1..])
  {
    hide ParseHunkHeader;
    if SomeUnreadable(lines) {
      var i :| 0 <= i < |lines| && HasPrefix(lines[i], "@@") && ParseHunkHeader(lines[i]).None?;
      assert i > 0 ==> lines[1..][i - 1] == lines[i];
    }
    if SomeUnreadable(lines[1..]) {
      var i :| 0 <= i < |lines| - 1 && HasPrefix(lines[1..][i], "@@") && ParseHunkHeader(lines[1..][i]).None?;
      assert lines[i + 1] == lines[1..][i];
    }
  }

  lemma LineExactly(r: Reading, line: string)
    requires Sensible(r)
    ensures ReadLine(r, line).None? <==> HasPrefix(line, "@@") && ParseHunkHeader(line).None?
    ensures ReadLine(r, line).Some? ==>
              && Sensible(ReadLine(r, line).value)
              && ReadLine(r, line).value.files == r.files + if HasPrefix(line, "diff --git ") then 1 else 0
  {
    hide ParseHunkHeader, ParseDiffLine;
    if HasPrefix(line, "@@") {
      assert line[0] == '@';
    }
  }

  /** One side of a header is a start alone, which counts one line, or a start and a count. */
  ghost predicate Side(text: string, start: int, count: int) {
    || (',' !in text && Atoi(text) == Some(start) && count == 1)
    || exists a, b :: text == a + "," + b && ',' !in a && Atoi(a) == Some(start) && Atoi(b) == Some(count)
  }

  lemma SideExactly(text: string, start: int, count: int)
    ensures ParseHunkRange(text) == Some((start, count)) <==> Side(text, start, count)
  {
    hide Atoi, Cut;
    CutFree(text, ',');
    var (before, after, found) := Cut(text, ",");
    if Side(text, start, count) && ',' in text {
      var a, b :| text == a + "," + b && ',' !in a && Atoi(a) == Some(start) && Atoi(b) == Some(count);
      CutAtChar(a, ",", b);
    }
  }

  /** A header that is read says its two sides between the marks, the old one after a dash and the new one
      after a plus. */
  lemma HeaderForm(line: string) returns (before: string, after: string, heading: string)
    requires ParseHunkHeader(line).Some?
    ensures var h := ParseHunkHeader(line).value;
            && TrimPrefix(line, "@@ ") == "-" + before + " +" + after + " @@" + heading
            && Side(before, h.oldStart, h.oldLines) && Side(after, h.newStart, h.newLines) && h.lines == []
  {
    hide Cut, ParseHunkRange, Side;
    var text := TrimPrefix(line, "@@ ");
    CutParts(text, " @@");
    var (ranges, rest, _) := Cut(text, " @@");
    CutParts(ranges, " +");
    var (first, second, _) := Cut(ranges, " +");
    before, after, heading := TrimPrefix(first, "-"), second, rest;
    assert first == "-" + before;
    var h := ParseHunkHeader(line).value;
    SideExactly(before, h.oldStart, h.oldLines);
    SideExactly(after, h.newStart, h.newLines);
  }

  // ---------------------------------------------------------------- writing

  /** A line of a hunk as it is written: an empty unchanged line with its marker or without, and the note
      that the file ends without a newline or not. */
  datatype WrittenLine = WrittenLine(line: DiffLine, bare: bool, note: bool)

  /** A hunk as it is written: which counts of 1 are left out, and any text after the header. */
  datatype WrittenHunk = WrittenHunk(
    oldStart: nat, oldLines: nat, shortOld: bool,
    newStart: nat, newLines: nat, shortNew: bool,
    heading: string, lines: seq<WrittenLine>)

  /** One file as it is written: what follows `diff --git`, its change with the mode, other header
      lines, the note on binary content if it has one, and its hunks. */
  datatype WrittenFile = WrittenFile(
    names: string, change: Change, mode: string, meta: seq<string>, binary: Option<string>, hunks: seq<WrittenHunk>)

  function RangeText(start: nat, count: nat, short: bool): string {
    if short && count == 1 then Itoa(start) else Itoa(start) + "," + Itoa(count)
  }

  function HeaderText(h: WrittenHunk): string {
    "@@ -" + RangeText(h.oldStart, h.oldLines, h.shortOld) + " +" + RangeText(h.newStart, h.newLines, h.shortNew) + " @@" + h.heading
  }

  function Marker(kind: LineKind): string {
    match kind
    case LineAdded => "+"
    case LineRemoved => "-"
    case LineContext => " "
  }

  const NO_NEWLINE := "\\ No newline at end of file"

  const EMPTY_LINE := DiffLine(LineContext, "")

  function LineText(l: WrittenLine): string {
    if l.bare && l.line == EMPTY_LINE then "" else Marker(l.line.kind) + l.line.content
  }

  function LineTexts(l: WrittenLine): seq<string> {
    [LineText(l)] + if l.note then [NO_NEWLINE] else []
  }

  function BodyTexts(lines: seq<WrittenLine>): seq<string> {
    if lines == [] then [] else LineTexts(lines[0]) + BodyTexts(lines[1..])
  }

  function HunkTexts(h: WrittenHunk): seq<string> { [HeaderText(h)] + BodyTexts(h.lines) }

  function HunksTexts(hunks: seq<WrittenHunk>): seq<string> {
    if hunks == [] then [] else HunkTexts(hunks[0]) + HunksTexts(hunks[1..])
  }

  function ChangeTexts(f: WrittenFile): seq<string> {
    match f.change
    case ChangeModified => []
    case ChangeAdded => ["new file mode " + f.mode]
    case ChangeRemoved => ["deleted file mode " + f.mode]
  }

  function BinaryTexts(f: WrittenFile): seq<string> {
    match f.binary
    case None => []
    case Some(text) => ["Binary files " + text]
  }

  function FileTexts(f: WrittenFile): seq<string> {
    ["diff --git " + f.names] + ChangeTexts(f) + f.meta + BinaryTexts(f) + HunksTexts(f.hunks)
  }

  function FilesTexts(files: seq<WrittenFile>): seq<string> {
    if files == [] then [] else FileTexts(files[0]) + FilesTexts(files[1..])
  }

  function Render(files: seq<WrittenFile>): string { Terminated(FilesTexts(files), '\n') }

  // ---------------------------------------------------------------- what can be written

  predicate OneLine(s: string) { '\n' !in s }

  /** A header line the reader takes no notice of outside a hunk. */
  predicate Neutral(line: string) {
    && OneLine(line)
    && !HasPrefix(line, "diff --git ") && !HasPrefix(line, "@@")
    && !HasPrefix(line, "new file mode ") && !HasPrefix(line, "deleted file mode ") && !HasPrefix(line, "Binary files ")
  }

  lemma NeutralStart(p: string, text: string)
    requires OneLine(p) && OneLine(text) && p != ""
    requires p[0] !in "d@B" && (p[0] == 'n' ==> |p| > 4 && p[4] != 'f')
    ensures Neutral(p + text)
  {
    var line := p + text;
    assert line[0] == p[0];
    assert |p| > 4 ==> line[4] == p[4];
    assert "new file mode "[4] == 'f';
  }

  /** The header lines git writes besides are of that kind. */
  lemma GitHeadersNeutral(text: string)
    requires OneLine(text)
    ensures Neutral("index " + text) && Neutral("--- " + text) && Neutral("+++ " + text)
    ensures Neutral("old mode " + text) && Neutral("new mode " + text)
  {
    hide Neutral;
    NeutralStart("index ", text);
    NeutralStart("--- ", text);
    NeutralStart("+++ ", text);
    NeutralStart("old mode ", text);
    NeutralStart("new mode ", text);
  }

  predicate Writable(f: WrittenFile) {
    && OneLine(f.names) && OneLine(f.mode) && (f.binary.Some? ==> OneLine(f.binary.value))
    && (forall m :: m in f.meta ==> Neutral(m))
    && (forall h :: h in f.hunks ==> WritableHunk(h))
  }

  predicate WritableHunk(h: WrittenHunk) {
    && h.oldStart <= MAX_INT && h.oldLines <= MAX_INT && h.newStart <= MAX_INT && h.newLines <= MAX_INT
    && OneLine(h.heading)
    && (forall l :: l in h.lines ==> OneLine(l.line.content))
  }

  /** The structure a written file stands for. */
  function Lines(lines: seq<WrittenLine>): (r: seq<DiffLine>)
    ensures |r| == |lines| && forall i :: 0 <= i < |lines| ==> r[i] == lines[i].line
  {
    seq(|lines|, i requires 0 <= i < |lines| => lines[i].line)
  }

  function Meant(h: WrittenHunk): Hunk {
    Hunk(h.oldStart, h.oldLines, h.newStart, h.newLines, Lines(h.lines))
  }

  function MeantHunks(hunks: seq<WrittenHunk>): (r: seq<Hunk>)
    ensures |r| == |hunks| && forall i :: 0 <= i < |hunks| ==> r[i] == Meant(hunks[i])
  {
    seq(|hunks|, i requires 0 <= i < |hunks| => Meant(hunks[i]))
  }

  function MeantFile(f: WrittenFile): SourceDiff {
    SourceDiff(f.change, f.binary.Some?, MeantHunks(f.hunks))
  }

  // ---------------------------------------------------------------- headers

  lemma RangeRead(start: nat, count: nat, short: bool)
    requires start <= MAX_INT && count <= MAX_INT
    ensures ParseHunkRange(RangeText(start, count, short)) == Some((start as int, count as int))
  {
    AtoiItoa(start);
    AtoiItoa(count);
    if short && count == 1 {
      CutMissing(Itoa(start), ",");
    } else {
      CutAtChar(Itoa(start), ",", Itoa(count));
    }
  }

  /** A range is written in digits and a comma. */
  lemma RangeChars(start: nat, count: nat, short: bool)
    ensures forall c :: c in RangeText(start, count, short) ==> IsDigit(c) || c == ','
  {}

  /** A header is closed by its second mark, not before. */
  lemma ClosedAt(o: string, n: string, heading: string)
    requires forall c :: c in o || c in n ==> c != ' ' && c != '@'
    ensures var ranges := "-" + o + " +" + n;
            Cut(ranges + " @@" + heading, " @@") == (ranges, heading, true)
  {
    hide Cut;
    var ranges := "-" + o + " +" + n;
    forall c | c in ranges ensures c != '@' { assert ranges == ("-" + o) + (" +" + n); }
    forall i | 0 <= i < |ranges| ensures !HasPrefix((ranges + " @@" + heading)[i..], " @@") {
      var rest := (ranges + " @@" + heading)[i..];
      assert rest[1] == (ranges + " @@")[i + 1];
      assert i + 1 < |ranges| ==> rest[1] == ranges[i + 1] && ranges[i + 1] in ranges;
      assert i + 1 == |ranges| ==> rest[1] == ' ';
      assert rest[1] != " @@"[1];
    }
    CutAt(ranges, " @@", heading);
  }

  lemma HeaderRead(h: WrittenHunk)
    requires WritableHunk(h)
    ensures ParseHunkHeader(HeaderText(h)) == Some(Hunk(h.oldStart, h.oldLines, h.newStart, h.newLines, []))
  {
    hide RangeText, Atoi, Itoa, Cut, ParseHunkRange;
    var o, n := RangeText(h.oldStart, h.oldLines, h.shortOld), RangeText(h.newStart, h.newLines, h.shortNew);
    RangeChars(h.oldStart, h.oldLines, h.shortOld);
    RangeChars(h.newStart, h.newLines, h.shortNew);
    RangeRead(h.oldStart, h.oldLines, h.shortOld);
    RangeRead(h.newStart, h.newLines, h.shortNew);
    var ranges := "-" + o + " +" + n;
    assert HeaderText(h) == "@@ " + (ranges + " @@" + h.heading);
    assert TrimPrefix(HeaderText(h), "@@ ") == ranges + " @@" + h.heading;
    ClosedAt(o, n, h.heading);
    assert ranges == ("-" + o) + " +" + n;
    CutAtChar("-" + o, " +", n);
    assert TrimPrefix("-" + o, "-") == o;
  }

  // ---------------------------------------------------------------- reading what was written

  lemma {:induction false} ReadTwo(r: Reading, a: seq<string>, b: seq<string>)
    requires Sensible(r)
    ensures ReadLines(r, a + b) == match ReadLines(r, a) case None => None case Some(mid) => ReadLines(mid, b)
    decreases |a|
  {
    hide ReadLine;
    if a == [] {
      assert a + b == b;
    } else {
      assert (a + b)[1..] == a[1..] + b;
      if ReadLine(r, a[0]).Some? {
        assert Sensible(ReadLine(r, a[0]).value) by { ReadSensible(r, a[0]); }
        ReadTwo(ReadLine(r, a[0]).value, a[1..], b);
      }
    }
  }

  lemma ReadOne(r: Reading, line: string)
    requires Sensible(r)
    ensures ReadLines(r, [line]) == ReadLine(r, line)
  {
    hide ReadLine;
    ReadSensible(r, line);
    if ReadLine(r, line).Some? {
      assert ReadLines(ReadLine(r, line).value, [line][1..]) == ReadLine(r, line);
    }
  }

  lemma ReadSensible(r: Reading, line: string)
    requires Sensible(r)
    ensures ReadLine(r, line).Some? ==> Sensible(ReadLine(r, line).value)
  {
    hide ParseHunkHeader, ParseDiffLine;
  }

  lemma MarkedLine(l: WrittenLine)
    ensures ParseDiffLine(LineText(l)) == l.line
    ensures !HasPrefix(LineText(l), "diff --git ") && !HasPrefix(LineText(l), "@@") && !HasPrefix(LineText(l), "\\")
  {
    var text := Marker(l.line.kind) + l.line.content;
    assert text[0] == Marker(l.line.kind)[0];
    assert text[1..] == l.line.content;
  }

  /** Lines added to the last hunk. */
  function AddLines(hunks: seq<Hunk>, lines: seq<DiffLine>): seq<Hunk>
    requires hunks != []
  {
    var last := hunks[|hunks| - 1];
    hunks[..|hunks| - 1] + [last.(lines := last.lines + lines)]
  }

  lemma AddLinesStep(hunks: seq<Hunk>, lines: seq<WrittenLine>)
    requires hunks != []
    ensures lines == [] ==> AddLines(hunks, Lines(lines)) == hunks
    ensures lines != [] ==> AddLines(AddLine(hunks, lines[0].line), Lines(lines[1..])) == AddLines(hunks, Lines(lines))
  {
    var k := |hunks| - 1;
    var last := hunks[k];
    if lines == [] {
      assert last.lines + Lines(lines) == last.lines;
    } else {
      assert last.lines + Lines(lines) == last.lines + [lines[0].line] + Lines(lines[1..]);
      assert AddLine(hunks, lines[0].line)[..k] == hunks[..k];
    }
  }

  lemma LineRead(r: Reading, l: WrittenLine)
    requires r.inHunk && r.diff.hunks != []
    ensures ReadLines(r, LineTexts(l)) == Some(r.(diff := r.diff.(hunks := AddLine(r.diff.hunks, l.line))))
  {
    hide ParseDiffLine, LineText, ReadLines, AddLine;
    MarkedLine(l);
    var text := LineText(l);
    var next := r.(diff := r.diff.(hunks := AddLine(r.diff.hunks, l.line)));
    assert ReadLine(r, text) == Some(next);
    ReadOne(r, text);
    NoteRead(next);
    ReadTwo(r, [text], [NO_NEWLINE]);
    assert [text] + [] == [text];
  }

  /** The content of a hunk comes back line by line, whatever it looks like. */
  lemma {:induction false} BodyRead(r: Reading, lines: seq<WrittenLine>)
    requires r.inHunk && r.diff.hunks != []
    ensures ReadLines(r, BodyTexts(lines)) == Some(r.(diff := r.diff.(hunks := AddLines(r.diff.hunks, Lines(lines)))))
    decreases |lines|
  {
    hide ReadLine, LineTexts, Lines, AddLines;
    AddLinesStep(r.diff.hunks, lines);
    if lines != [] {
      LineRead(r, lines[0]);
      var next := r.(diff := r.diff.(hunks := AddLine(r.diff.hunks, lines[0].line)));
      ReadTwo(r, LineTexts(lines[0]), BodyTexts(lines[1..]));
      BodyRead(next, lines[1..]);
    }
  }

  lemma NoteRead(r: Reading)
    requires r.inHunk && r.diff.hunks != []
    ensures ReadLine(r, NO_NEWLINE) == Some(r) && ReadLines(r, [NO_NEWLINE]) == Some(r)
  {
    assert NO_NEWLINE[0] == '\\';
    assert HasPrefix(NO_NEWLINE, "\\");
    assert !HasPrefix(NO_NEWLINE, "diff --git ") && !HasPrefix(NO_NEWLINE, "@@");
    ReadOne(r, NO_NEWLINE);
  }

  lemma HunkRead(r: Reading, h: WrittenHunk)
    requires Sensible(r) && WritableHunk(h)
    ensures ReadLines(r, HunkTexts(h)) == Some(r.(diff := r.diff.(hunks := r.diff.hunks + [Meant(h)]), inHunk := true))
  {
    HeaderRead(h);
    var header := HeaderText(h);
    assert header[0] == '@' && header[1] == '@' && header[..2] == "@@";
    assert HasPrefix(header, "@@") && !HasPrefix(header, "diff --git ");
    hide HeaderText, ParseHunkHeader;
    var started := Hunk(h.oldStart, h.oldLines, h.newStart, h.newLines, []);
    var next := r.(diff := r.diff.(hunks := r.diff.hunks + [started]), inHunk := true);
    assert ReadLine(r, header) == Some(next);
    assert HunkTexts(h)[0] == header && HunkTexts(h)[1..] == BodyTexts(h.lines);
    BodyRead(next, h.lines);
    assert next.diff.hunks[..|r.diff.hunks|] == r.diff.hunks;
    assert [] + Lines(h.lines) == Lines(h.lines);
  }

  lemma {:induction false} HunksRead(r: Reading, hunks: seq<WrittenHunk>)
    requires Sensible(r) && forall h :: h in hunks ==> WritableHunk(h)
    ensures ReadLines(r, HunksTexts(hunks)) ==
            Some(r.(diff := r.diff.(hunks := r.diff.hunks + MeantHunks(hunks)), inHunk := r.inHunk || hunks != []))
    decreases |hunks|
  {
    hide HunkTexts, WritableHunk, Meant;
    if hunks == [] {
      assert r.diff.hunks + MeantHunks(hunks) == r.diff.hunks;
    } else {
      HunkRead(r, hunks[0]);
      var next := r.(diff := r.diff.(hunks := r.diff.hunks + [Meant(hunks[0])]), inHunk := true);
      ReadTwo(r, HunkTexts(hunks[0]), HunksTexts(hunks[1..]));
      HunksRead(next, hunks[1..]);
      assert r.diff.hunks + MeantHunks(hunks) == r.diff.hunks + [Meant(hunks[0])] + MeantHunks(hunks[1..]);
    }
  }

  lemma {:induction false} MetaRead(r: Reading, meta: seq<string>)
    requires !r.inHunk && forall m :: m in meta ==> Neutral(m)
    ensures ReadLines(r, meta) == Some(r)
    decreases |meta|
  {
    if meta != [] {
      assert Neutral(meta[0]);
      hide Neutral;
      assert ReadLine(r, meta[0]) == Some(r) by { assert Neutral(meta[0]); NeutralRead(r, meta[0]); }
      MetaRead(r, meta[1..]);
    }
  }

  lemma NeutralRead(r: Reading, line: string)
    requires !r.inHunk && Neutral(line)
    ensures ReadLine(r, line) == Some(r)
  {}

  lemma Starts(p: string, s: string, q: string)
    ensures HasPrefix(p + s, p)
    ensures p != "" && q != "" && p[0] != q[0] ==> !HasPrefix(p + s, q)
  {
    if p != "" { assert (p + s)[0] == p[0]; }
  }

  lemma ChangeRead(r: Reading, f: WrittenFile)
    requires !r.inHunk
    ensures ReadLines(r, ChangeTexts(f)) ==
            Some(if f.change == ChangeModified then r else r.(diff := r.diff.(change := f.change)))
  {
    match f.change
    case ChangeModified =>
    case ChangeAdded =>
      var text := "new file mode " + f.mode;
      Starts("new file mode ", f.mode, "diff --git ");
      Starts("new file mode ", f.mode, "@@");
      assert ReadLine(r, text) == Some(r.(diff := r.diff.(change := ChangeAdded)));
      ReadOne(r, text);
    case ChangeRemoved =>
      var text := "deleted file mode " + f.mode;
      Starts("deleted file mode ", f.mode, "@@");
      Starts("deleted file mode ", f.mode, "new file mode ");
      assert text[1] == 'e' && "diff --git "[1] == 'i';
      assert !HasPrefix(text, "diff --git ");
      assert ReadLine(r, text) == Some(r.(diff := r.diff.(change := ChangeRemoved)));
      ReadOne(r, text);
  }

  lemma BinaryRead(r: Reading, f: WrittenFile)
    requires !r.inHunk
    ensures ReadLines(r, BinaryTexts(f)) == Some(if f.binary.Some? then r.(diff := r.diff.(binary := true)) else r)
  {
    if f.binary.Some? {
      var text := "Binary files " + f.binary.value;
      Starts("Binary files ", f.binary.value, "diff --git ");
      Starts("Binary files ", f.binary.value, "@@");
      Starts("Binary files ", f.binary.value, "new file mode ");
      Starts("Binary files ", f.binary.value, "deleted file mode ");
      assert ReadLine(r, text) == Some(r.(diff := r.diff.(binary := true)));
      ReadOne(r, text);
    }
  }

  /** What the reader knows after one file more. */
  function After(r: Reading, f: WrittenFile): Reading {
    Reading(
      SourceDiff(if f.change == ChangeModified then r.diff.change else f.change, r.diff.binary || f.binary.Some?, r.diff.hunks + MeantHunks(f.hunks)),
      r.files + 1, f.hunks != [])
  }

  lemma FileRead(r: Reading, f: WrittenFile)
    requires Sensible(r) && Writable(f)
    ensures Sensible(After(r, f)) && ReadLines(r, FileTexts(f)) == Some(After(r, f))
  {
    var first := "diff --git " + f.names;
    Starts("diff --git ", f.names, "");
    var r1 := r.(files := r.files + 1, inHunk := false);
    assert ReadLine(r, first) == Some(r1);
    ReadOne(r, first);
    assert ReadLines(r, [first]) == Some(r1);
    ChangeRead(r1, f);
    var r2 := if f.change == ChangeModified then r1 else r1.(diff := r1.diff.(change := f.change));
    MetaRead(r2, f.meta);
    BinaryRead(r2, f);
    var r3 := if f.binary.Some? then r2.(diff := r2.diff.(binary := true)) else r2;
    HunksRead(r3, f.hunks);
    hide ReadLine, ReadLines, ChangeTexts, BinaryTexts, HunksTexts, MeantHunks;
    ReadTwo(r, [first], ChangeTexts(f));
    ReadTwo(r, [first] + ChangeTexts(f), f.meta);
    ReadTwo(r, [first] + ChangeTexts(f) + f.meta, BinaryTexts(f));
    ReadTwo(r, [first] + ChangeTexts(f) + f.meta + BinaryTexts(f), HunksTexts(f.hunks));
  }

  lemma {:induction false} FilesRead(r: Reading, files: seq<WrittenFile>)
    requires Sensible(r) && forall f :: f in files ==> Writable(f)
    ensures ReadLines(r, FilesTexts(files)).Some?
    ensures ReadLines(r, FilesTexts(files)).value.files == r.files + |files|
    decreases |files|
  {
    hide FileTexts, Writable, ReadLine;
    if files != [] {
      FileRead(r, files[0]);
      ReadTwo(r, FileTexts(files[0]), FilesTexts(files[1..]));
      FilesRead(After(r, files[0]), files[1..]);
    }
  }

  // ---------------------------------------------------------------- the text itself

  lemma {:induction false} BodyOneLine(lines: seq<WrittenLine>)
    requires forall l :: l in lines ==> OneLine(l.line.content)
    ensures forall t :: t in BodyTexts(lines) ==> OneLine(t)
  {
    if lines != [] {
      BodyOneLine(lines[1..]);
      assert OneLine(Marker(lines[0].line.kind));
      assert lines[0] in lines;
    }
  }

  lemma {:induction false} HunksOneLine(hunks: seq<WrittenHunk>)
    requires forall h :: h in hunks ==> WritableHunk(h)
    ensures forall t :: t in HunksTexts(hunks) ==> OneLine(t)
  {
    if hunks != [] {
      var h := hunks[0];
      assert WritableHunk(h);
      HunksOneLine(hunks[1..]);
      BodyOneLine(h.lines);
      RangeChars(h.oldStart, h.oldLines, h.shortOld);
      RangeChars(h.newStart, h.newLines, h.shortNew);
      hide RangeText, BodyTexts;
      assert OneLine(HeaderText(h));
    }
  }

  lemma {:induction false} FilesOneLine(files: seq<WrittenFile>)
    requires forall f :: f in files ==> Writable(f)
    ensures forall t :: t in FilesTexts(files) ==> OneLine(t)
  {
    if files != [] {
      var f := files[0];
      assert Writable(f);
      FilesOneLine(files[1..]);
      HunksOneLine(f.hunks);
      hide HunksTexts;
      assert forall t :: t in ChangeTexts(f) ==> OneLine(t);
      assert forall t :: t in BinaryTexts(f) ==> OneLine(t);
      assert forall t :: t in FileTexts(f) ==> OneLine(t);
    }
  }

  /** Reading one file's diff gives back its change, its ranges and its lines, however it was
      written: counts of 1 spelled out or not, any heading, any notes, any content. */
  lemma RoundTrip(f: WrittenFile)
    requires Writable(f)
    ensures Parse(Render([f])) == Ok(MeantFile(f))
  {
    FileRead(NOTHING_READ, f);
    FilesOneLine([f]);
    assert FilesTexts([f]) == FileTexts(f) + FilesTexts([]);
    assert FilesTexts([f]) == FileTexts(f);
    LinesOf(FileTexts(f), '\n');
    assert [] + MeantHunks(f.hunks) == MeantHunks(f.hunks);
  }

  /** A text of several files' diffs, or of none, is refused: only one is ever read as the answer. */
  lemma OneFileOnly(files: seq<WrittenFile>)
    requires forall f :: f in files ==> Writable(f)
    ensures |files| != 1 ==> Parse(Render(files)) == NotOneFile(|files|)
    ensures Parse(Render(files)).Ok? <==> |files| == 1
  {
    hide ReadLine, FileTexts, Writable, ReadLines;
    if files == [] {
      EmptyRead();
    } else {
      FilesRead(NOTHING_READ, files);
      FilesOneLine(files);
      FileNotEmpty(files[0]);
      LinesOf(FilesTexts(files), '\n');
    }
  }

  lemma FileNotEmpty(f: WrittenFile)
    ensures FileTexts(f) != []
  {}

  /** A file without differences: git writes nothing at all. */
  lemma EmptyRead()
    ensures Parse(Render([])) == NotOneFile(0)
  {
    assert Split("", '\n') == [""];
    ReadOne(NOTHING_READ, "");
  }
}

// What a parsed patch means apart from its paths: hunks with their rows' bytes, line
// numbers, counts and binary flags.  It depends on the contents of the lines alone,
// not on where they stand, and is the meaning of one section after the other.
module PatchMeaning {
  import opened Wrappers
  import opened Utf8
  import opened GitPaths
  import opened PatchModel
  import opened PatchPieces
  import opened PatchParser
  import opened HeaderLines

  // ---- views: texts as bytes, paths and status forgotten ----

  function ViewRow(row: Row): Row {
    match row
    case Context(o, n, t) => Context(o, n, Owned(TextBytes(t)))
    case Addition(n, t) => Addition(n, Owned(TextBytes(t)))
    case Deletion(o, t) => Deletion(o, Owned(TextBytes(t)))
    case Meta(t) => Meta(Owned(TextBytes(t)))
  }

  function ViewRows(rows: seq<Row>): seq<Row> {
    if rows == [] then [] else ViewRows(rows[..|rows| - 1]) + [ViewRow(rows[|rows| - 1])]
  }

  function ViewHunk(h: Hunk): Hunk { h.(lines := ViewRows(h.lines)) }

  function ViewHunks(hunks: seq<Hunk>): seq<Hunk> {
    if hunks == [] then [] else ViewHunks(hunks[..|hunks| - 1]) + [ViewHunk(hunks[|hunks| - 1])]
  }

  const NO_CHANGE := UnknownFile(None, None)

  function ViewFile(f: DiffFile): DiffFile {
    DiffFile(NO_CHANGE, f.additions, f.deletions, if f.body.Text? then Text(ViewHunks(f.body.hunks)) else Binary)
  }

  function ViewFiles(files: seq<DiffFile>): seq<DiffFile> {
    if files == [] then [] else ViewFiles(files[..|files| - 1]) + [ViewFile(files[|files| - 1])]
  }

  function ViewBuilder(f: FileBuilder): FileBuilder {
    FileBuilder(None, None, Unknown, ViewHunks(f.hunks), f.additions, f.deletions, f.binary)
  }

  function ViewOpen(h: HunkBuilder): HunkBuilder { h.(lines := ViewRows(h.lines)) }

  function View(s: State): State {
    State(ViewFiles(s.files),
          if s.current.Some? then Some(ViewBuilder(s.current.value)) else None,
          if s.hunk.Some? then Some(ViewOpen(s.hunk.value)) else None, 0, 0)
  }

  // ---- views of views ----

  lemma {:induction false} ViewRowsSnoc(rows: seq<Row>, row: Row)
    ensures ViewRows(rows + [row]) == ViewRows(rows) + [ViewRow(row)]
  {
    assert (rows + [row])[..|rows|] == rows;
  }

  lemma {:induction false} ViewHunksSnoc(hunks: seq<Hunk>, h: Hunk)
    ensures ViewHunks(hunks + [h]) == ViewHunks(hunks) + [ViewHunk(h)]
  {
    assert (hunks + [h])[..|hunks|] == hunks;
  }

  lemma {:induction false} ViewFilesSnoc(files: seq<DiffFile>, f: DiffFile)
    ensures ViewFiles(files + [f]) == ViewFiles(files) + [ViewFile(f)]
  {
    assert (files + [f])[..|files|] == files;
  }

  lemma {:induction false} ViewRowsTwice(rows: seq<Row>)
    ensures ViewRows(ViewRows(rows)) == ViewRows(rows)
    decreases |rows|
  {
    if rows != [] {
      var n := |rows| - 1;
      ViewRowsTwice(rows[..n]);
      ViewRowsSnoc(ViewRows(rows[..n]), ViewRow(rows[n]));
    }
  }

  lemma {:induction false} ViewHunksTwice(hunks: seq<Hunk>)
    ensures ViewHunks(ViewHunks(hunks)) == ViewHunks(hunks)
    ensures ViewHunks(hunks) == [] <==> hunks == []
    decreases |hunks|
  {
    if hunks != [] {
      var n := |hunks| - 1;
      ViewHunksTwice(hunks[..n]);
      ViewRowsTwice(hunks[n].lines);
      hide ViewRows;
      ViewHunksSnoc(ViewHunks(hunks[..n]), ViewHunk(hunks[n]));
    }
  }

  lemma {:induction false} ViewFilesTwice(files: seq<DiffFile>)
    ensures ViewFiles(ViewFiles(files)) == ViewFiles(files) && |ViewFiles(files)| == |files|
    decreases |files|
  {
    if files != [] {
      var n := |files| - 1;
      ViewFilesTwice(files[..n]);
      if files[n].body.Text? { ViewHunksTwice(files[n].body.hunks); }
      hide ViewHunks;
      ViewFilesSnoc(ViewFiles(files[..n]), ViewFile(files[n]));
    }
  }

  lemma {:induction false} ViewTwice(s: State)
    ensures View(View(s)) == View(s)
  {
    ViewFilesTwice(s.files);
    if s.current.Some? { ViewHunksTwice(s.current.value.hunks); }
    if s.hunk.Some? { ViewRowsTwice(s.hunk.value.lines); }
    hide ViewFiles, ViewHunks, ViewRows;
  }

  lemma {:induction false} ViewFilesConcat(a: seq<DiffFile>, b: seq<DiffFile>)
    ensures ViewFiles(a + b) == ViewFiles(a) + ViewFiles(b)
    decreases |b|
  {
    hide ViewFile;
    if b == [] {
      assert a + b == a;
    } else {
      var n := |b| - 1;
      ViewFilesConcat(a, b[..n]);
      assert a + b == (a + b[..n]) + [b[n]];
      ViewFilesSnoc(a + b[..n], b[n]);
    }
  }

  // ---- a step's view depends on views and contents ----

  // The line on its own.
  function Alone(c: seq<Byte>): Line { Line(0, c) }

  function AloneNext(next: Option<Line>): Option<Line> {
    if next.Some? then Some(Alone(next.value.bytes)) else None
  }

  // A push appends to the rows it finds, the same rows as to none.
  lemma {:induction false} PushFrame(h: HunkBuilder, raw: seq<Byte>, line: Line)
    ensures var e := PushRow(h.(lines := []), raw, line);
            PushRow(h, raw, line) == e.(lines := h.lines + e.lines) && |e.lines| <= 1
  {
    hide SpanWithin, Clamp, SatAdd;
    assert h.lines + [] == h.lines;
    assert forall r: Row :: [] + [r] == [r];
  }

  lemma {:induction false} PushAlike(h: HunkBuilder, raw: seq<Byte>, line: Line)
    requires InPatch(raw, line) && |raw| <= ISIZE_MAX && h.lines == []
    ensures var e, k := PushRow(h, raw, line), PushRow(h, line.bytes, Alone(line.bytes));
            && e.(lines := []) == k.(lines := []) && |e.lines| == |k.lines| <= 1
            && (|e.lines| == 1 ==> ViewRow(e.lines[0]) == ViewRow(k.lines[0]))
  {
    SameText(raw, line);
    hide SpanWithin, TextBytes, Clamp, SatAdd;
    assert forall r: Row :: ([] + [r])[0] == r;
    var b := line.bytes;
    if b == [] {
    } else if b[0] == 43 {
    } else if b[0] == 45 {
    } else if b[0] == SPACE {
    } else if b[0] == BACKSLASH {
    } else {
    }
  }

  lemma {:induction false} ViewNewRow(h: HunkBuilder, raw: seq<Byte>, line: Line)
    requires InPatch(raw, line) && |raw| <= ISIZE_MAX && h.lines == []
    ensures ViewOpen(PushRow(h, raw, line)) == ViewOpen(PushRow(h, line.bytes, Alone(line.bytes)))
  {
    hide PushRow, ViewRows, ViewRow;
    PushAlike(h, raw, line);
    var e, k := PushRow(h, raw, line), PushRow(h, line.bytes, Alone(line.bytes));
    if |e.lines| == 1 {
      ViewOne(e.lines[0]);
      ViewOne(k.lines[0]);
      assert e.lines == [e.lines[0]] && k.lines == [k.lines[0]];
    } else {
      assert e.lines == k.lines;
    }
  }

  lemma {:induction false} ViewOne(row: Row)
    ensures ViewRows([row]) == [ViewRow(row)]
  {
    ViewRowsSnoc([], row);
    assert [] + [row] == [row];
  }

  lemma {:induction false} ViewRowsConcat(a: seq<Row>, b: seq<Row>)
    requires |b| <= 1
    ensures ViewRows(a + b) == ViewRows(a) + ViewRows(b)
  {
    hide ViewRow;
    if b == [] {
      assert a + b == a;
    } else {
      assert b == [b[0]];
      ViewRowsSnoc(a, b[0]);
      ViewOne(b[0]);
    }
  }

  lemma {:induction false} ViewPush(h: HunkBuilder, raw: seq<Byte>, line: Line)
    requires InPatch(raw, line) && |raw| <= ISIZE_MAX
    ensures ViewOpen(PushRow(h, raw, line)) == ViewOpen(PushRow(ViewOpen(h), line.bytes, Alone(line.bytes)))
  {
    hide PushRow, ViewRows;
    var alone, v := Alone(line.bytes), ViewOpen(h);
    PushFrame(h, raw, line);
    PushFrame(v, line.bytes, alone);
    ViewNewRow(h.(lines := []), raw, line);
    ViewRowsConcat(h.lines, PushRow(h.(lines := []), raw, line).lines);
    ViewRowsConcat(ViewRows(h.lines), PushRow(h.(lines := []), line.bytes, alone).lines);
    ViewRowsTwice(h.lines);
  }

  // Where a line stands does not change its texts.
  lemma {:induction false} SameText(raw: seq<Byte>, line: Line)
    requires InPatch(raw, line) && |raw| <= ISIZE_MAX
    ensures var n := |line.bytes|;
            && TextBytes(SpanWithin(raw, line.start, n, U32_MAX)) == TextBytes(SpanWithin(line.bytes, 0, n, U32_MAX))
            && (n > 0 ==> TextBytes(SpanWithin(raw, SatAdd(line.start, 1), n - 1, U32_MAX)) == TextBytes(SpanWithin(line.bytes, SatAdd(0, 1), n - 1, U32_MAX)))
  {
    var n := |line.bytes|;
    hide SpanWithin, TextBytes, ExactText;
    SpanIsExact(raw, line.start, n, U32_MAX);
    SpanIsExact(line.bytes, 0, n, U32_MAX);
    assert line.bytes[0..0 + n] == line.bytes;
    if n > 0 {
      SpanIsExact(raw, line.start + 1, n - 1, U32_MAX);
      SpanIsExact(line.bytes, 1, n - 1, U32_MAX);
      assert raw[line.start + 1..line.start + 1 + (n - 1)] == line.bytes[1..1 + (n - 1)];
    }
  }

  lemma {:induction false} ViewFinishHunk(s: State)
    ensures FinishHunk(View(s)) == View(FinishHunk(s))
  {
    hide ViewFiles, ViewHunks, ViewRows;
    if s.current.Some? && s.hunk.Some? { ViewHunksSnoc(s.current.value.hunks, FinishHunkBuilder(s.hunk.value)); }
  }

  lemma {:induction false} ViewFinishFile(s: State)
    ensures FinishFile(View(s)) == View(FinishFile(s))
  {
    hide ViewFiles, ViewHunks, ViewRows;
    if s.current.Some? { ViewFilesSnoc(s.files, FinishFileBuilder(s.current.value)); }
  }

  lemma {:induction false} ViewClosed(s: State)
    ensures Closed(View(s)) == View(Closed(s))
  {
    hide FinishHunk, FinishFile, View;
    ViewFinishHunk(s);
    ViewFinishFile(FinishHunk(s));
  }

  lemma {:induction false} ViewSettle(s: State, c: seq<Byte>, line: Line)
    requires line.bytes == c
    ensures Settle(View(s), Alone(c)) == View(Settle(s, line)) && StartsUnified(View(Settle(s, line))) == StartsUnified(Settle(s, line))
  {
    hide FinishHunk, ViewFiles, ViewHunks, ViewRows;
    ViewFinishHunk(s);
    var t := Settle(s, line);
    if t.current.Some? { ViewHunksTwice(t.current.value.hunks); }
  }

  // Two states with one view after setting the same file or hunk.
  lemma {:induction false} ViewSet(s: State, f: FileBuilder)
    ensures View(View(s).(current := Some(f))) == View(s.(current := Some(f)))
  {
    ViewFilesTwice(s.files);
    if s.hunk.Some? { ViewRowsTwice(s.hunk.value.lines); }
    hide ViewFiles, ViewRows, ViewBuilder;
  }

  lemma {:induction false} ViewSetHunk(s: State, h: HunkBuilder, k: HunkBuilder, rows: nat, hunks: nat, rows': nat, hunks': nat)
    requires ViewOpen(h) == ViewOpen(k)
    ensures View(View(s).(hunk := Some(k), rows := rows', hunks := hunks')) == View(s.(hunk := Some(h), rows := rows, hunks := hunks))
  {
    ViewFilesTwice(s.files);
    if s.current.Some? { ViewHunksTwice(s.current.value.hunks); }
    hide ViewFiles, ViewOpen, ViewHunks;
  }

  lemma {:induction false} ViewHeader(f: FileBuilder, line: seq<Byte>)
    ensures ViewBuilder(ApplyHeader(ViewBuilder(f), line)) == ViewBuilder(ApplyHeader(f, line)) == ViewBuilder(f).(binary := f.binary || BinaryMarker(line))
  {
    ApplyHeaderKeeps(f, line);
    ApplyHeaderKeeps(ViewBuilder(f), line);
    ViewHunksTwice(f.hunks);
    hide ApplyHeader, ViewHunks, BinaryMarker;
  }

  predicate Agrees(a: Stepped, b: Stepped) {
    a.Next? ==> b.Next? && b.consumed == a.consumed && View(b.state) == View(a.state)
  }

  lemma {:induction false} ViewStepInFile(raw: seq<Byte>, s: State, line: Line, limits: Limits)
    requires s.current.Some? && InPatch(raw, line) && |raw| <= ISIZE_MAX
    ensures View(s).current.Some? && Agrees(StepInFile(raw, s, line, limits), StepInFile(line.bytes, View(s), Alone(line.bytes), UNLIMITED))
  {
    hide FinishHunk, PushRow, StartHunk, ApplyHeader, Lossy, WithoutReturn, ViewFiles, ViewHunks, ViewRows, ViewOpen, ViewBuilder;
    var v, c, header := View(s), line.bytes, Header(line);
    assert Header(Alone(c)) == header;
    if AT <= header {
      var h := StartHunk(Lossy(header));
      ViewFinishHunk(s);
      ViewSetHunk(FinishHunk(s), h, h, s.rows, s.hunks + 1, 0, 1);
    } else if s.hunk.Some? {
      ViewPush(s.hunk.value, raw, line);
      ViewSetHunk(s, PushRow(s.hunk.value, raw, line), PushRow(ViewOpen(s.hunk.value), c, Alone(c)), s.rows + 1, s.hunks, 1, 0);
    } else {
      ViewHeader(s.current.value, Lossy(header));
      ViewSetBuilder(s, ApplyHeader(s.current.value, Lossy(header)), ApplyHeader(ViewBuilder(s.current.value), Lossy(header)));
    }
  }

  lemma {:induction false} ViewSetBuilder(s: State, f: FileBuilder, g: FileBuilder)
    requires ViewBuilder(f) == ViewBuilder(g)
    ensures View(View(s).(current := Some(g))) == View(s.(current := Some(f)))
  {
    ViewSet(s, g);
    hide ViewBuilder, ViewFiles, ViewOpen;
  }

  lemma {:induction false} ViewStep(raw: seq<Byte>, s: State, line: Line, next: Option<Line>, limits: Limits)
    requires InPatch(raw, line) && |raw| <= ISIZE_MAX
    ensures Agrees(Step(raw, s, line, next, limits), Step(line.bytes, View(s), Alone(line.bytes), AloneNext(next), UNLIMITED))
  {
    var c, header, after := line.bytes, Header(line), NextHeader(next);
    assert Header(Alone(c)) == header && NextHeader(AloneNext(next)) == after;
    if DIFF_GIT <= header {
      ViewClosed(s);
      ViewSet(Closed(s), StartFile(DiffGitPaths(Lossy(header))));
    } else {
      ViewSettle(s, c, line);
      var t := Settle(s, line);
      if MINUS <= header && StartsUnified(t) && PLUS <= after {
        ViewClosed(t);
        ViewSet(Closed(t), UnifiedFile(header, after));
      } else if t.current.None? {
        ViewTwice(t);
      } else {
        ViewStepInFile(raw, t, line, limits);
      }
    }
    hide Closed, Settle, StepInFile, UnifiedFile, DiffGitPaths, Lossy, Header, StartFile, ViewFiles, ViewBuilder, ViewOpen, StartsUnified;
  }

  // ---- the meaning of a list of line contents ----

  lemma {:induction false} NeverStops(raw: seq<Byte>, s: State, line: Line, next: Option<Line>)
    ensures Step(raw, s, line, next, UNLIMITED).Next?
  {
    hide PushRow, StartHunk, ApplyHeader, DiffGitPaths, Lossy, Complete, UnifiedFile, FinishFileBuilder, Header, Closed, Settle, FinishHunk;
  }

  function Head(cs: seq<seq<Byte>>): Option<seq<Byte>> {
    if cs == [] then None else Some(cs[0])
  }

  function StepContents(v: State, c: seq<Byte>, next: Option<seq<Byte>>): (r: (State, nat))
    ensures r.1 == 1 || (next.Some? && r.1 == 2)
  {
    var after := if next.Some? then Some(Alone(next.value)) else None;
    NeverStops(c, v, Alone(c), after);
    StepConsumes(c, v, Alone(c), after, UNLIMITED);
    var n := Step(c, v, Alone(c), after, UNLIMITED);
    (View(n.state), n.consumed)
  }

  function RunContents(v: State, cs: seq<seq<Byte>>): State
    decreases |cs|
  {
    if cs == [] then v
    else
      var n := StepContents(v, cs[0], Head(cs[1..]));
      RunContents(n.0, cs[n.1..])
  }

  // The files of a patch with these lines.
  function Files(cs: seq<seq<Byte>>): seq<DiffFile> {
    Closed(RunContents(START, cs)).files
  }

  lemma {:induction false} StepContentsView(raw: seq<Byte>, s: State, line: Line, next: Option<Line>, limits: Limits)
    requires InPatch(raw, line) && |raw| <= ISIZE_MAX && Step(raw, s, line, next, limits).Next?
    ensures var n := Step(raw, s, line, next, limits);
            StepContents(View(s), line.bytes, if next.Some? then Some(next.value.bytes) else None) == (View(n.state), n.consumed)
  {
    hide Step, View;
    ViewStep(raw, s, line, next, limits);
  }

  lemma {:induction false} ContentsTail(lines: seq<Line>)
    requires lines != []
    ensures Contents(lines) != [] && Contents(lines)[0] == lines[0].bytes && Contents(lines)[1..] == Contents(lines[1..])
    ensures Head(Contents(lines[1..])) == if Peek(lines[1..]).Some? then Some(Peek(lines[1..]).value.bytes) else None
  {
  }

  // A run's view is the run over the contents.
  lemma {:induction false} RunView(raw: seq<Byte>, s: State, lines: seq<Line>, limits: Limits)
    requires AllInPatch(raw, lines)
    ensures var r := Run(raw, s, lines, limits); r.Ok? ==> View(r.value) == RunContents(View(s), Contents(lines))
    decreases |lines|
  {
    hide Step, StepContents, View, InPatch, Contents;
    if lines == [] {
      NoContents();
    } else {
      ContentsTail(lines);
      var next := Peek(lines[1..]);
      var n := Step(raw, s, lines[0], next, limits);
      if n.Next? {
        StepConsumes(raw, s, lines[0], next, limits);
        StepContentsView(raw, s, lines[0], next, limits);
        if n.consumed == 1 {
          RunView(raw, n.state, lines[1..], limits);
        } else {
          ContentsTail(lines[1..]);
          assert lines[1..][1..] == lines[2..] && Contents(lines)[1..][1..] == Contents(lines)[2..];
          RunView(raw, n.state, lines[2..], limits);
        }
      }
    }
  }

  lemma {:induction false} NoContents()
    ensures Contents([]) == []
  {
  }

  // The parser's files, their paths and texts' places forgotten, depend on the contents
  // of the patch's lines alone.
  lemma {:induction false} ParseMeans(raw: seq<Byte>, limits: Limits)
    requires |raw| <= ISIZE_MAX
    ensures var r := ParseRange(raw, 0, |raw|, limits); r.Ok? ==> ViewFiles(r.value) == Files(PieceContents(Pieces(raw)))
  {
    hide Lines, Pieces, Run, RunContents, ParsedLimits, View, Closed, InPatch;
    var lines := Lines(raw, 0, |raw|);
    PiecesAreLines(raw, 0);
    assert raw[0..] == raw;
    LinesInPatch(raw, 0, |raw|);
    RunView(raw, START, lines, limits);
    StartView();
    var r := Run(raw, START, lines, limits);
    if r.Ok? {
      ViewClosed(r.value);
      ViewOfFiles(Closed(r.value));
    }
  }

  lemma {:induction false} StartView()
    ensures View(START) == START
  {
  }

  lemma {:induction false} ViewOfFiles(s: State)
    ensures View(s).files == ViewFiles(s.files)
  {
  }

  // Without limits every patch parses.
  lemma {:induction false} ParseIsOk(raw: seq<Byte>)
    ensures ParseRange(raw, 0, |raw|, UNLIMITED).Ok?
  {
    hide Run, Lines;
    RunIsOk(raw, START, Lines(raw, 0, |raw|));
    hide Closed, CountHunks, CountRows;
  }

  lemma {:induction false} RunIsOk(raw: seq<Byte>, s: State, lines: seq<Line>)
    ensures Run(raw, s, lines, UNLIMITED).Ok?
    decreases |lines|
  {
    hide Step;
    if lines != [] {
      NeverStops(raw, s, lines[0], Peek(lines[1..]));
      StepConsumes(raw, s, lines[0], Peek(lines[1..]), UNLIMITED);
      var n := Step(raw, s, lines[0], Peek(lines[1..]), UNLIMITED);
      RunIsOk(raw, n.state, lines[n.consumed..]);
    }
  }

  // ---- one section after the other ----

  predicate BeginsFile(c: seq<Byte>) {
    DIFF_GIT <= WithoutReturn(c)
  }

  predicate Fresh(cs: seq<seq<Byte>>) {
    cs == [] || BeginsFile(cs[0])
  }

  lemma {:induction false} SameStepContents(v: State, c: seq<Byte>, n: Option<seq<Byte>>, m: Option<seq<Byte>>)
    requires n == m || (m.None? && n.Some? && !(PLUS <= WithoutReturn(n.value)))
    ensures StepContents(v, c, n) == StepContents(v, c, m)
  {
    var a := if n.Some? then Some(Alone(n.value)) else None;
    var b := if m.Some? then Some(Alone(m.value)) else None;
    SameStep(c, v, Alone(c), a, b, UNLIMITED);
    hide Step, View;
  }

  lemma {:induction false} RunAppendContents(v: State, a: seq<seq<Byte>>, b: seq<seq<Byte>>)
    requires b == [] || !(PLUS <= WithoutReturn(b[0]))
    ensures RunContents(v, a + b) == RunContents(RunContents(v, a), b)
    decreases |a|
  {
    hide StepContents, WithoutReturn;
    if a == [] {
      assert a + b == b;
    } else {
      var all := a + b;
      assert all[0] == a[0] && all[1..] == a[1..] + b;
      SameStepContents(v, a[0], Head(all[1..]), Head(a[1..]));
      var n := StepContents(v, a[0], Head(a[1..]));
      assert all[n.1..] == a[n.1..] + b;
      RunAppendContents(n.0, a[n.1..], b);
    }
  }

  predicate Viewed(files: seq<DiffFile>) {
    ViewFiles(files) == files
  }

  lemma {:induction false} ShiftStepContents(v: State, c: seq<Byte>, next: Option<seq<Byte>>, files: seq<DiffFile>)
    requires Viewed(files)
    ensures var n := StepContents(v, c, next); StepContents(Shift(v, files, 0, 0), c, next) == (Shift(n.0, files, 0, 0), n.1)
  {
    hide Step, Shift, View;
    var after := if next.Some? then Some(Alone(next.value)) else None;
    NeverStops(c, v, Alone(c), after);
    ShiftStep(c, v, Alone(c), after, UNLIMITED, files, 0, 0);
    ShiftView(Step(c, v, Alone(c), after, UNLIMITED).state, files);
  }

  lemma {:induction false} ShiftView(s: State, files: seq<DiffFile>)
    requires Viewed(files)
    ensures View(Shift(s, files, 0, 0)) == Shift(View(s), files, 0, 0)
  {
    hide ViewFiles, ViewHunks, ViewRows;
    ViewFilesConcat(files, s.files);
  }

  lemma {:induction false} ShiftRunContents(v: State, cs: seq<seq<Byte>>, files: seq<DiffFile>)
    requires Viewed(files)
    ensures RunContents(Shift(v, files, 0, 0), cs) == Shift(RunContents(v, cs), files, 0, 0)
    decreases |cs|
  {
    hide StepContents, Shift, Viewed;
    if cs != [] {
      ShiftStepContents(v, cs[0], Head(cs[1..]), files);
      var n := StepContents(v, cs[0], Head(cs[1..]));
      ShiftRunContents(n.0, cs[n.1..], files);
    }
  }

  // The state after a `diff --git ` line: nothing of what came before but its files.
  function Begun(files: seq<DiffFile>): State {
    State(files, Some(FileBuilder(None, None, Unknown, [], 0, 0, false)), None, 0, 0)
  }

  lemma {:induction false} StepStarts(v: State, c: seq<Byte>, next: Option<seq<Byte>>)
    requires BeginsFile(c) && View(v) == v
    ensures StepContents(v, c, next) == (Begun(Closed(v).files), 1) && Viewed(Closed(v).files)
  {
    ViewClosed(v);
    hide Closed, DiffGitPaths, Lossy;
    ClosedCounts(v);
    ViewOfFiles(Closed(v));
    ViewFilesTwice(Closed(v).files);
    hide ViewFiles;
  }

  lemma {:induction false} SectionRunContents(v: State, cs: seq<seq<Byte>>)
    requires cs != [] && BeginsFile(cs[0]) && View(v) == v
    ensures RunContents(v, cs) == Shift(RunContents(START, cs), Closed(v).files, 0, 0)
  {
    StartView();
    ClosedCounts(START);
    StepStarts(v, cs[0], Head(cs[1..]));
    StepStarts(START, cs[0], Head(cs[1..]));
    hide StepContents, Closed, View, Viewed, BeginsFile;
    ShiftBegun(Closed(v).files);
    ShiftRunContents(Begun([]), cs[1..], Closed(v).files);
  }

  lemma {:induction false} ShiftBegun(files: seq<DiffFile>)
    ensures Shift(Begun([]), files, 0, 0) == Begun(files)
  {
    assert files + [] == files;
  }

  lemma {:induction false} RunViewed(v: State, cs: seq<seq<Byte>>)
    requires View(v) == v
    ensures View(RunContents(v, cs)) == RunContents(v, cs)
    decreases |cs|
  {
    hide View, Step;
    if cs != [] {
      var n := StepContents(v, cs[0], Head(cs[1..]));
      StepViewed(v, cs[0], Head(cs[1..]));
      RunViewed(n.0, cs[n.1..]);
    }
  }

  lemma {:induction false} StepViewed(v: State, c: seq<Byte>, next: Option<seq<Byte>>)
    ensures View(StepContents(v, c, next).0) == StepContents(v, c, next).0
  {
    hide View, Step;
    var after := if next.Some? then Some(Alone(next.value)) else None;
    NeverStops(c, v, Alone(c), after);
    ViewTwice(Step(c, v, Alone(c), after, UNLIMITED).state);
  }

  // Sections mean what they mean, one after the other.
  lemma {:induction false} FilesSplit(a: seq<seq<Byte>>, b: seq<seq<Byte>>)
    requires Fresh(b)
    ensures Files(a + b) == Files(a) + Files(b)
  {
    hide RunContents, Closed, View;
    if b != [] { SectionIsNoPlus(WithoutReturn(b[0])); }
    RunAppendContents(START, a, b);
    StartView();
    RunViewed(START, a);
    var s := RunContents(START, a);
    if b == [] {
      NoRun(s);
      NoRun(START);
      ClosedCounts(START);
      assert Files(b) == [];
      assert Files(a) + [] == Files(a);
    } else {
      SectionRunContents(s, b);
      var t := RunContents(START, b);
      ShiftClosed(t, Closed(s).files, 0, 0);
      ShiftFiles(Closed(t), Closed(s).files, 0, 0);
    }
  }

  lemma {:induction false} NoRun(v: State)
    ensures RunContents(v, []) == v
  {
  }
}

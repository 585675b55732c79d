// What the parser's running counts count: the hunk headers and hunk lines it came across.
// They exceed the finished files' hunks and rows by the no-newline markers and by the
// hunks and rows of binary files, which the finished files do not show.
module PatchCounts {
  import opened Wrappers
  import opened Utf8
  import opened GitPaths
  import opened PatchModel
  import opened PatchParser

  // ---- the files of a run as they were built, binary ones with their hunks ----

  function Built(s: State): seq<FileBuilder> {
    if FinishHunk(s).current.Some? then [FinishHunk(s).current.value] else []
  }

  predicate OpensUnified(s: State, line: Line, next: Option<Line>) {
    MINUS <= Header(line) && StartsUnified(Settle(s, line)) && PLUS <= NextHeader(next)
  }

  // The file that this step finishes, if any.
  function BuiltAt(s: State, line: Line, next: Option<Line>): seq<FileBuilder> {
    if DIFF_GIT <= Header(line) then Built(s)
    else if OpensUnified(s, line, next) then Built(Settle(s, line))
    else []
  }

  function BuiltFiles(raw: seq<Byte>, s: State, lines: seq<Line>, limits: Limits): seq<FileBuilder>
    decreases |lines|
  {
    if lines == [] then Built(s)
    else
      match Step(raw, s, lines[0], Peek(lines[1..]), limits)
      case Stop(_) => []
      case Next(t, n) =>
        StepConsumes(raw, s, lines[0], Peek(lines[1..]), limits);
        BuiltAt(s, lines[0], Peek(lines[1..])) + BuiltFiles(raw, t, lines[n..], limits)
  }

  function Finished(builders: seq<FileBuilder>): seq<DiffFile> {
    if builders == [] then [] else [FinishFileBuilder(builders[0])] + Finished(builders[1..])
  }

  // ---- what a run comes across ----

  // The line heads a hunk of the open file.
  predicate HeadsHunk(s: State, line: Line, next: Option<Line>) {
    !(DIFF_GIT <= Header(line)) && !OpensUnified(s, line, next) && Settle(s, line).current.Some? && AT <= Header(line)
  }

  // The line falls into an open hunk.
  predicate InHunk(s: State, line: Line, next: Option<Line>) {
    && !(DIFF_GIT <= Header(line)) && !OpensUnified(s, line, next) && Settle(s, line).current.Some?
    && !(AT <= Header(line)) && Settle(s, line).hunk.Some?
  }

  predicate Marker(line: Line) {
    NO_NEWLINE <= line.bytes
  }

  datatype Met = Met(headers: nat, lines: nat, markers: nat)

  function Plus(a: Met, b: Met): Met {
    Met(a.headers + b.headers, a.lines + b.lines, a.markers + b.markers)
  }

  function MetAt(s: State, line: Line, next: Option<Line>): Met {
    Met(if HeadsHunk(s, line, next) then 1 else 0,
        if InHunk(s, line, next) then 1 else 0,
        if InHunk(s, line, next) && Marker(line) then 1 else 0)
  }

  // How many lines of a run head a hunk, fall into one, and are no-newline markers there.
  function MetIn(raw: seq<Byte>, s: State, lines: seq<Line>, limits: Limits): Met
    decreases |lines|
  {
    if lines == [] then Met(0, 0, 0)
    else
      match Step(raw, s, lines[0], Peek(lines[1..]), limits)
      case Stop(_) => Met(0, 0, 0)
      case Next(t, n) =>
        StepConsumes(raw, s, lines[0], Peek(lines[1..]), limits);
        Plus(MetAt(s, lines[0], Peek(lines[1..])), MetIn(raw, t, lines[n..], limits))
  }

  // ---- hunks and rows of builders ----

  function HunksOf(builders: seq<FileBuilder>): nat {
    if builders == [] then 0 else |builders[0].hunks| + HunksOf(builders[1..])
  }

  function RowsOf(builders: seq<FileBuilder>): nat {
    if builders == [] then 0 else CountLines(builders[0].hunks) + RowsOf(builders[1..])
  }

  function Binaries(builders: seq<FileBuilder>): seq<FileBuilder> {
    if builders == [] then [] else (if builders[0].binary then [builders[0]] else []) + Binaries(builders[1..])
  }

  // What is under way.
  function OpenHunks(s: State): nat {
    (if s.current.Some? then |s.current.value.hunks| else 0) + if s.hunk.Some? then 1 else 0
  }

  function OpenRows(s: State): nat {
    (if s.current.Some? then CountLines(s.current.value.hunks) else 0) + if s.hunk.Some? then |s.hunk.value.lines| else 0
  }

  predicate HunkHasFile(s: State) {
    s.hunk.Some? ==> s.current.Some?
  }

  lemma {:induction false} LinesSnoc(hunks: seq<Hunk>, h: Hunk)
    ensures CountLines(hunks + [h]) == CountLines(hunks) + |h.lines|
  {
    assert (hunks + [h])[..|hunks|] == hunks;
  }

  lemma {:induction false} FinishHunkCounts(s: State)
    requires HunkHasFile(s)
    ensures var t := FinishHunk(s);
            && OpenHunks(t) == OpenHunks(s) && OpenRows(t) == OpenRows(s) && t.rows == s.rows && t.hunks == s.hunks
            && t.files == s.files && t.hunk.None? && t.current.Some? == s.current.Some?
            && HunksOf(Built(s)) == OpenHunks(s) && RowsOf(Built(s)) == OpenRows(s)
  {
    hide CountLines;
    if s.hunk.Some? { LinesSnoc(s.current.value.hunks, FinishHunkBuilder(s.hunk.value)); }
    var b := Built(s);
    assert b != [] ==> b[1..] == [];
  }

  lemma {:induction false} SettleCounts(s: State, line: Line)
    requires HunkHasFile(s)
    ensures var t := Settle(s, line);
            && OpenHunks(t) == OpenHunks(s) && OpenRows(t) == OpenRows(s) && t.rows == s.rows && t.hunks == s.hunks && t.files == s.files
            && HunkHasFile(t) && t.current.Some? == s.current.Some?
  {
    hide OpenRows, OpenHunks, FinishHunk, Built, Complete;
    FinishHunkCounts(s);
  }

  lemma {:induction false} ClosedBuilt(s: State)
    requires HunkHasFile(s)
    ensures Closed(s).files == s.files + Finished(Built(s)) && Closed(s).rows == s.rows && Closed(s).hunks == s.hunks
    ensures Closed(s).current.None? && Closed(s).hunk.None?
    ensures HunksOf(Built(s)) == OpenHunks(s) && RowsOf(Built(s)) == OpenRows(s)
  {
    FinishHunkCounts(s);
    hide FinishHunk, OpenHunks, OpenRows, HunksOf, RowsOf, FinishFileBuilder;
    var b := Built(s);
    assert b != [] ==> b == [b[0]] && b[1..] == [];
    assert s.files + [] == s.files;
  }

  lemma {:induction false} PushCounts(h: HunkBuilder, raw: seq<Byte>, line: Line)
    ensures |PushRow(h, raw, line).lines| == |h.lines| + if Marker(line) then 0 else 1
  {
    hide SpanWithin, SatAdd, Clamp;
    assert NO_NEWLINE[0] == BACKSLASH;
  }

  // What a step does to all the counts.
  predicate Balanced(s: State, t: State, built: seq<FileBuilder>, met: Met) {
    && t.files == s.files + Finished(built)
    && t.hunks == s.hunks + met.headers && t.rows == s.rows + met.lines
    && HunksOf(built) + OpenHunks(t) == OpenHunks(s) + met.headers
    && RowsOf(built) + OpenRows(t) + met.markers == OpenRows(s) + met.lines
    && HunkHasFile(t)
  }

  // A new file with nothing in it yet.
  lemma {:induction false} NewFileBalanced(s: State, f: FileBuilder)
    requires HunkHasFile(s) && f.hunks == []
    ensures Balanced(s, Closed(s).(current := Some(f)), Built(s), Met(0, 0, 0))
  {
    ClosedBuilt(s);
    hide Closed, Built, HunksOf, RowsOf, Finished;
  }

  lemma {:induction false} SameBalanced(s: State, t: State)
    requires HunkHasFile(s) && t.files == s.files && t.hunks == s.hunks && t.rows == s.rows
    requires OpenHunks(t) == OpenHunks(s) && OpenRows(t) == OpenRows(s) && HunkHasFile(t)
    ensures Balanced(s, t, [], Met(0, 0, 0))
  {
    hide OpenHunks, OpenRows;
    assert s.files + [] == s.files;
  }

  lemma {:induction false} HeadsBalanced(s: State, h: HunkBuilder)
    requires HunkHasFile(s) && s.current.Some? && h.lines == []
    ensures Balanced(s, FinishHunk(s).(hunks := s.hunks + 1, hunk := Some(h)), [], Met(1, 0, 0))
  {
    FinishHunkCounts(s);
    assert s.files + [] == s.files;
    hide FinishHunk, CountLines, Built;
  }

  lemma {:induction false} RowBalanced(s: State, h: HunkBuilder, marker: bool)
    requires s.current.Some? && s.hunk.Some? && |h.lines| == |s.hunk.value.lines| + if marker then 0 else 1
    ensures Balanced(s, s.(rows := s.rows + 1, hunk := Some(h)), [], Met(0, 1, if marker then 1 else 0))
  {
    assert s.files + [] == s.files;
    hide CountLines;
  }

  lemma {:induction false} HeaderBalanced(s: State, f: FileBuilder)
    requires s.current.Some? && s.hunk.None? && f.hunks == s.current.value.hunks
    ensures Balanced(s, s.(current := Some(f)), [], Met(0, 0, 0))
  {
    assert s.files + [] == s.files;
    hide CountLines;
  }

  lemma {:induction false} InFileBalanced(raw: seq<Byte>, s: State, line: Line, limits: Limits)
    requires HunkHasFile(s) && s.current.Some? && StepInFile(raw, s, line, limits).Next?
    ensures var heads, row := AT <= Header(line), !(AT <= Header(line)) && s.hunk.Some?;
            Balanced(s, StepInFile(raw, s, line, limits).state, [],
                     Met(if heads then 1 else 0, if row then 1 else 0, if row && Marker(line) then 1 else 0))
  {
    hide Balanced, FinishHunk, PushRow, StartHunk, ApplyHeader, Lossy, Header, CountLines, Marker, Over;
    if AT <= Header(line) {
      StartIsEmpty(Lossy(Header(line)));
      HeadsBalanced(s, StartHunk(Lossy(Header(line))));
    } else if s.hunk.Some? {
      PushCounts(s.hunk.value, raw, line);
      RowBalanced(s, PushRow(s.hunk.value, raw, line), Marker(line));
    } else {
      HeaderKeepsHunks(s.current.value, Lossy(Header(line)));
      HeaderBalanced(s, ApplyHeader(s.current.value, Lossy(Header(line))));
    }
  }

  lemma {:induction false} StartIsEmpty(header: seq<Byte>)
    ensures StartHunk(header).lines == []
  {
  }

  lemma {:induction false} HeaderKeepsHunks(f: FileBuilder, line: seq<Byte>)
    ensures ApplyHeader(f, line).hunks == f.hunks
  {
    hide UnifiedPath, StripSide, MetadataPath, TrimMatches, BinaryMarker;
  }

  lemma {:induction false} UnifiedHasNoHunks(header: seq<Byte>, next: seq<Byte>)
    ensures UnifiedFile(header, next).hunks == []
  {
    hide ApplyHeader;
    HeaderKeepsHunks(StartFile((None, None)), Lossy(header));
    HeaderKeepsHunks(ApplyHeader(StartFile((None, None)), Lossy(header)), Lossy(next));
  }

  lemma {:induction false} FromSettled(s: State, line: Line, t: State, built: seq<FileBuilder>, met: Met)
    requires HunkHasFile(s) && Balanced(Settle(s, line), t, built, met)
    ensures Balanced(s, t, built, met)
  {
    SettleCounts(s, line);
    hide Settle, OpenHunks, OpenRows, HunksOf, RowsOf, Finished;
  }

  lemma {:induction false} StepBalanced(raw: seq<Byte>, s: State, line: Line, next: Option<Line>, limits: Limits)
    requires HunkHasFile(s) && Step(raw, s, line, next, limits).Next?
    ensures Balanced(s, Step(raw, s, line, next, limits).state, BuiltAt(s, line, next), MetAt(s, line, next))
  {
    hide Balanced, Closed, Settle, StepInFile, UnifiedFile, DiffGitPaths, Lossy, Header, NextHeader, Built, OpenHunks, OpenRows, Over;
    var t := Settle(s, line);
    SettleCounts(s, line);
    if DIFF_GIT <= Header(line) {
      NewFileBalanced(s, StartFile(DiffGitPaths(Lossy(Header(line)))));
    } else if OpensUnified(s, line, next) {
      UnifiedHasNoHunks(Header(line), NextHeader(next));
      NewFileBalanced(t, UnifiedFile(Header(line), NextHeader(next)));
      NotAt(line);
      FromSettled(s, line, Step(raw, s, line, next, limits).state, Built(t), Met(0, 0, 0));
    } else if t.current.None? {
      SameBalanced(s, t);
    } else {
      InFileBalanced(raw, t, line, limits);
      FromSettled(s, line, Step(raw, s, line, next, limits).state, [], MetAt(s, line, next));
    }
  }

  lemma {:induction false} NotAt(line: Line)
    ensures MINUS <= Header(line) ==> !(AT <= Header(line))
  {
    assert MINUS[0] == 45 && AT[0] == 64;
  }

  lemma {:induction false} BuiltConcat(a: seq<FileBuilder>, b: seq<FileBuilder>)
    ensures Finished(a + b) == Finished(a) + Finished(b)
    ensures HunksOf(a + b) == HunksOf(a) + HunksOf(b) && RowsOf(a + b) == RowsOf(a) + RowsOf(b)
    decreases |a|
  {
    hide CountLines, FinishFileBuilder;
    if a == [] {
      assert a + b == b && Finished(a) + Finished(b) == Finished(b);
    } else {
      assert (a + b)[1..] == a[1..] + b;
      BuiltConcat(a[1..], b);
    }
  }

  // A run's counts are what it came across, and its hunks and rows are in its files.
  lemma {:induction false} RunBalanced(raw: seq<Byte>, s: State, lines: seq<Line>, limits: Limits)
    requires HunkHasFile(s) && Run(raw, s, lines, limits).Ok?
    ensures var t, b, met := Run(raw, s, lines, limits).value, BuiltFiles(raw, s, lines, limits), MetIn(raw, s, lines, limits);
            && Closed(t).files == s.files + Finished(b)
            && t.hunks == s.hunks + met.headers && t.rows == s.rows + met.lines
            && HunksOf(b) == OpenHunks(s) + met.headers
            && RowsOf(b) + met.markers == OpenRows(s) + met.lines
    decreases |lines|
  {
    hide Step, Closed, Built, BuiltAt, MetAt, HunksOf, RowsOf, Finished, OpenHunks, OpenRows;
    if lines == [] {
      ClosedBuilt(s);
    } else {
      var next := Peek(lines[1..]);
      var n := Step(raw, s, lines[0], next, limits);
      StepConsumes(raw, s, lines[0], next, limits);
      StepBalanced(raw, s, lines[0], next, limits);
      RunBalanced(raw, n.state, lines[n.consumed..], limits);
      var a, b := BuiltAt(s, lines[0], next), BuiltFiles(raw, n.state, lines[n.consumed..], limits);
      BuiltConcat(a, b);
      assert s.files + Finished(a) + Finished(b) == s.files + (Finished(a) + Finished(b));
    }
  }

  // ---- finished files ----

  lemma {:induction false} CountsConcat(a: seq<DiffFile>, b: seq<DiffFile>)
    ensures CountHunks(a + b) == CountHunks(a) + CountHunks(b) && CountRows(a + b) == CountRows(a) + CountRows(b)
    decreases |b|
  {
    hide CountLines, Hunks;
    if b == [] {
      assert a + b == a;
    } else {
      var n := |b| - 1;
      assert (a + b)[..|a + b| - 1] == a + b[..n];
      CountsConcat(a, b[..n]);
    }
  }

  // The finished files show all hunks and rows but those of binary files.
  lemma {:induction false} FinishedCounts(b: seq<FileBuilder>)
    ensures HunksOf(b) == CountHunks(Finished(b)) + HunksOf(Binaries(b))
    ensures RowsOf(b) == CountRows(Finished(b)) + RowsOf(Binaries(b))
    decreases |b|
  {
    hide CountLines;
    if b != [] {
      var f := FinishFileBuilder(b[0]);
      FinishedCounts(b[1..]);
      CountsConcat([f], Finished(b[1..]));
      OneCount(f);
      BuiltConcat(if b[0].binary then [b[0]] else [], Binaries(b[1..]));
      assert [b[0]][1..] == [];
      NoHunkNoRow();
    }
  }

  lemma {:induction false} NoHunkNoRow()
    ensures CountLines([]) == 0
  {
  }

  lemma {:induction false} OneCount(f: DiffFile)
    ensures CountHunks([f]) == |Hunks(f)| && CountRows([f]) == CountLines(Hunks(f))
  {
    hide CountLines, Hunks;
    assert [f][..0] == [];
  }

  // For every patch that parses: each `@@ ` line met with a file open heads exactly one
  // hunk, and each line met in an open hunk is a row of it or a no-newline marker; the
  // files show all of them but those of binary files.
  lemma {:induction false} ParsedCounts(raw: seq<Byte>, lines: seq<Line>, limits: Limits)
    requires Run(raw, START, lines, limits).Ok?
    ensures var t, b, met := Run(raw, START, lines, limits).value, BuiltFiles(raw, START, lines, limits), MetIn(raw, START, lines, limits);
            && Closed(t).files == Finished(b)
            && t.hunks == met.headers == CountHunks(Closed(t).files) + HunksOf(Binaries(b))
            && t.rows == met.lines == CountRows(Closed(t).files) + RowsOf(Binaries(b)) + met.markers
  {
    hide Run, BuiltFiles, MetIn, Closed, HunksOf, RowsOf, CountHunks, CountRows, Binaries, Finished;
    RunBalanced(raw, START, lines, limits);
    FinishedCounts(BuiltFiles(raw, START, lines, limits));
    assert [] + Finished(BuiltFiles(raw, START, lines, limits)) == Finished(BuiltFiles(raw, START, lines, limits));
  }
}

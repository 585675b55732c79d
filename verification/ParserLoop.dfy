// The parser as the source runs it: builders updated in place, one loop over the lines.
module ParserLoop {
  import opened Wrappers
  import opened Utf8
  import opened GitPaths
  import opened PatchModel
  import opened PatchParser

  class DiffHunkBuilder {
    const header: seq<Byte>
    const ranges: Ranges
    var oldLine: nat
    var newLine: nat
    var additions: nat
    var deletions: nat
    var lines: seq<Row>

    ghost function Abs(): HunkBuilder
      reads this
    {
      HunkBuilder(header, ranges, oldLine, newLine, additions, deletions, lines)
    }

    constructor FromHeader(text: seq<Byte>)
      ensures Abs() == StartHunk(text)
    {
      var r := HunkHeader(text);
      header := text;
      ranges := Ranges(Clamp(r.oldStart), r.oldCount, Clamp(r.newStart), r.newCount);
      oldLine, newLine := r.oldStart, r.newStart;
      additions, deletions, lines := 0, 0, [];
    }

    predicate IsComplete()
      reads this
      ensures IsComplete() == Complete(Abs())
    {
      && SatSub(oldLine, ranges.oldStart) >= ranges.oldCount
      && SatSub(newLine, ranges.newStart) >= ranges.newCount
    }

    method PushContextSpan(raw: seq<Byte>, offset: nat, len: nat)
      modifies this
      ensures Abs() == PushContext(old(Abs()), raw, offset, len)
    {
      var o, n := oldLine, newLine;
      oldLine, newLine := SatAdd(oldLine, 1), SatAdd(newLine, 1);
      lines := lines + [Context(Clamp(o), Clamp(n), SpanWithin(raw, offset, len, U32_MAX))];
    }

    method PushLineSpan(raw: seq<Byte>, line: Line)
      modifies this
      ensures Abs() == PushRow(old(Abs()), raw, line)
    {
      var b := line.bytes;
      if b == [] {
        PushContextSpan(raw, line.start, 0);
        return;
      }
      if b[0] == 43 {
        var n := newLine;
        newLine, additions := SatAdd(newLine, 1), SatAdd(additions, 1);
        lines := lines + [Addition(Clamp(n), SpanWithin(raw, SatAdd(line.start, 1), |b| - 1, U32_MAX))];
      } else if b[0] == 45 {
        var o := oldLine;
        oldLine, deletions := SatAdd(oldLine, 1), SatAdd(deletions, 1);
        lines := lines + [Deletion(Clamp(o), SpanWithin(raw, SatAdd(line.start, 1), |b| - 1, U32_MAX))];
      } else if b[0] == SPACE {
        PushContextSpan(raw, SatAdd(line.start, 1), |b| - 1);
      } else if b[0] == BACKSLASH {
        if !(NO_NEWLINE <= b) { lines := lines + [Meta(SpanWithin(raw, line.start, |b|, U32_MAX))]; }
      } else {
        PushContextSpan(raw, line.start, |b|);
      }
    }
  }

  class DiffFileBuilder {
    var oldPath: Option<seq<Byte>>
    var newPath: Option<seq<Byte>>
    var status: FileStatus
    var hunks: seq<Hunk>
    var additions: nat
    var deletions: nat
    var isBinary: bool

    ghost function Abs(): FileBuilder
      reads this
    {
      FileBuilder(oldPath, newPath, status, hunks, additions, deletions, isBinary)
    }

    constructor FromDiffGit(line: seq<Byte>)
      ensures Abs() == StartFile(DiffGitPaths(line))
    {
      var paths := DiffGitPaths(line);
      oldPath, newPath, status := paths.0, paths.1, Modified;
      hunks, additions, deletions, isBinary := [], 0, 0, false;
    }

    constructor FromUnifiedHeaders(oldHeader: seq<Byte>, newHeader: seq<Byte>)
      ensures Abs() == PatchModel.ApplyHeader(PatchModel.ApplyHeader(StartFile((None, None)), oldHeader), newHeader)
    {
      oldPath, newPath, status := None, None, Modified;
      hunks, additions, deletions, isBinary := [], 0, 0, false;
      new;
      ApplyHeader(oldHeader);
      ApplyHeader(newHeader);
    }

    method ApplyHeader(line: seq<Byte>)
      modifies this
      ensures Abs() == PatchModel.ApplyHeader(old(Abs()), line)
    {
      if NEW_FILE <= line {
        status := Added;
      } else if DELETED_FILE <= line {
        status := Deleted;
      } else if RENAME_FROM <= line {
        status, oldPath := Renamed, Some(MetadataPath(TrimMatches(line, RENAME_FROM)));
      } else if RENAME_TO <= line {
        status, newPath := Renamed, Some(MetadataPath(TrimMatches(line, RENAME_TO)));
      } else if COPY_FROM <= line {
        status, oldPath := Copied, Some(MetadataPath(TrimMatches(line, COPY_FROM)));
      } else if COPY_TO <= line {
        status, newPath := Copied, Some(MetadataPath(TrimMatches(line, COPY_TO)));
      } else if OLD_MODE <= line || NEW_MODE <= line {
        if status != Renamed && status != Copied { status := TypeChanged; }
      } else if BINARY_FILES <= line || line == BINARY_PATCH {
        isBinary := true;
      } else if MINUS <= line {
        var path := UnifiedPath(line[|MINUS|..]);
        if path == DEV_NULL { status, oldPath := Added, None; } else { oldPath := Some(StripSide(path, A_SIDE)); }
      } else if PLUS <= line {
        var path := UnifiedPath(line[|PLUS|..]);
        if path == DEV_NULL { status, newPath := Deleted, None; } else { newPath := Some(StripSide(path, B_SIDE)); }
      }
    }

    // The part of `finish_hunk` that works on the file.
    method Take(hunk: DiffHunkBuilder)
      modifies this
      ensures Abs() == old(Abs()).(additions := SatAdd(old(additions), hunk.additions), deletions := SatAdd(old(deletions), hunk.deletions),
                                   hunks := old(hunks) + [FinishHunkBuilder(hunk.Abs())])
    {
      additions := SatAdd(additions, hunk.additions);
      deletions := SatAdd(deletions, hunk.deletions);
      hunks := hunks + [Hunk(hunk.header, hunk.ranges, hunk.lines)];
    }

    method Finish() returns (file: DiffFile)
      ensures file == FinishFileBuilder(Abs())
    {
      file := DiffFile(ChangeOf(status, oldPath, newPath), additions, deletions, if isBinary then Binary else Text(hunks));
    }
  }

  ghost function Builders(files: seq<DiffFile>, current: DiffFileBuilder?, hunk: DiffHunkBuilder?, rows: nat, hunks: nat): State
    reads current, hunk
  {
    State(files, if current == null then None else Some(current.Abs()), if hunk == null then None else Some(hunk.Abs()), rows, hunks)
  }

  // `finish_hunk` and `finish_file` on the loop's variables.
  method FinishHunkIn(current: DiffFileBuilder?, hunk: DiffHunkBuilder?, ghost files: seq<DiffFile>, ghost rows: nat, ghost hunks: nat)
    modifies current
    ensures Builders(files, current, null, rows, hunks) == FinishHunk(old(Builders(files, current, hunk, rows, hunks)))
  {
    if current != null && hunk != null { current.Take(hunk); }
  }

  method FinishFileIn(files: seq<DiffFile>, current: DiffFileBuilder?, ghost rows: nat, ghost hunks: nat) returns (done: seq<DiffFile>)
    ensures Builders(done, null, null, rows, hunks) == FinishFile(Builders(files, current, null, rows, hunks))
  {
    done := files;
    if current != null {
      var file := current.Finish();
      done := done + [file];
    }
  }

  // `check_parsed_limits`
  method CheckParsedLimits(files: seq<DiffFile>, limits: Limits) returns (e: Option<Exceeded>)
    ensures e == ParsedLimits(files, limits)
  {
    if Over(limits.files, |files|) { return Some(Exceeded(FilesLimit, limits.files.value, |files|)); }
    var rows, hunks := 0, 0;
    for i := 0 to |files|
      invariant rows == CountRows(files[..i]) && hunks == CountHunks(files[..i])
    {
      assert files[..i + 1][..i] == files[..i];
      var list := Hunks(files[i]);
      hunks := hunks + |list|;
      var more := 0;
      for k := 0 to |list|
        invariant more == CountLines(list[..k])
      {
        assert list[..k + 1][..k] == list[..k];
        more := more + |list[k].lines|;
      }
      assert list[..|list|] == list;
      rows := rows + more;
    }
    assert files[..|files|] == files;
    if Over(limits.hunks, hunks) { return Some(Exceeded(HunksLimit, limits.hunks.value, hunks)); }
    if Over(limits.rows, rows) { return Some(Exceeded(RowsLimit, limits.rows.value, rows)); }
    e := None;
  }

  // ---- reading lines ----

  function LineAt(raw: seq<Byte>, at: nat, end: nat): Line
    requires at < end <= |raw|
  {
    Line(at, raw[at..LineEnd(raw, at, end)])
  }

  function After(raw: seq<Byte>, at: nat, end: nat): (r: nat)
    requires at < end <= |raw|
    ensures at < r <= end
  {
    if LineEnd(raw, at, end) < end then LineEnd(raw, at, end) + 1 else end
  }

  // The peeked line.
  function LineAfter(raw: seq<Byte>, at: nat, end: nat): Option<Line>
    requires at < end <= |raw|
  {
    if After(raw, at, end) < end then Some(LineAt(raw, After(raw, at, end), end)) else None
  }

  lemma {:induction false} FirstLine(raw: seq<Byte>, at: nat, end: nat)
    requires at < end <= |raw|
    ensures Lines(raw, at, end) != [] && Lines(raw, at, end)[0] == LineAt(raw, at, end)
    ensures Lines(raw, at, end)[1..] == Lines(raw, After(raw, at, end), end)
  {
  }

  // One turn of the loop on the run.
  lemma {:induction false} RunTurn(raw: seq<Byte>, s: State, at: nat, end: nat, limits: Limits)
    requires at < end <= |raw|
    ensures match Step(raw, s, LineAt(raw, at, end), LineAfter(raw, at, end), limits)
            case Stop(e) => Run(raw, s, Lines(raw, at, end), limits) == Err(e)
            case Next(t, n) =>
              && (n == 1 || (n == 2 && After(raw, at, end) < end))
              && var rest := if n == 1 then After(raw, at, end) else After(raw, After(raw, at, end), end);
                 Run(raw, s, Lines(raw, at, end), limits) == Run(raw, t, Lines(raw, rest, end), limits)
  {
    hide Step, LineEnd, Lines, LineAt, After;
    FirstLine(raw, at, end);
    var after := After(raw, at, end);
    var lines := Lines(raw, at, end);
    if after < end {
      FirstLine(raw, after, end);
      assert lines[2..] == lines[1..][1..];
    } else {
      NoLineLeft(raw, end);
    }
    if Step(raw, s, lines[0], Peek(lines[1..]), limits).Next? {
      StepConsumes(raw, s, lines[0], Peek(lines[1..]), limits);
    }
  }

  lemma {:induction false} NoLineLeft(raw: seq<Byte>, end: nat)
    requires end <= |raw|
    ensures Lines(raw, end, end) == []
  {
  }

  // ---- the loop ----

  // The part of the body that works on the current file.
  method TurnInFile(raw: seq<Byte>, ghost files: seq<DiffFile>, current: DiffFileBuilder, hunk0: DiffHunkBuilder?, rows0: nat, hunks0: nat,
                    line: Line, limits: Limits)
    returns (stop: Option<Exceeded>, hunk: DiffHunkBuilder?, rows: nat, hunks: nat)
    modifies current, hunk0
    ensures hunk == null || hunk == hunk0 || fresh(hunk)
    ensures StepInFile(raw, old(Builders(files, current, hunk0, rows0, hunks0)), line, limits) ==
            if stop.Some? then Stop(stop.value) else Next(Builders(files, current, hunk, rows, hunks), 1)
  {
    hide PushRow, StartHunk, PatchModel.ApplyHeader, Lossy, FinishHunkBuilder, WithoutReturn, UnifiedPath, HunkHeader, Clamp, SatAdd;
    stop, hunk, rows, hunks := None, hunk0, rows0, hunks0;
    var header := WithoutReturn(line.bytes);
    if AT <= header {
      FinishHunkIn(current, hunk, files, rows, hunks);
      hunk := null;
      hunks := hunks + 1;
      if Over(limits.hunks, hunks) {
        stop := Some(Exceeded(HunksLimit, limits.hunks.value, hunks));
        return;
      }
      hunk := new DiffHunkBuilder.FromHeader(Lossy(header));
      return;
    }
    if hunk != null {
      if Over(limits.lineBytes, |line.bytes|) {
        stop := Some(Exceeded(LineBytesLimit, limits.lineBytes.value, |line.bytes|));
        return;
      }
      rows := rows + 1;
      if Over(limits.rows, rows) {
        stop := Some(Exceeded(RowsLimit, limits.rows.value, rows));
        return;
      }
      hunk.PushLineSpan(raw, line);
      return;
    }
    current.ApplyHeader(Lossy(header));
  }

  // `finish_hunk` and then `finish_file`
  method FinishBoth(files: seq<DiffFile>, current: DiffFileBuilder?, hunk: DiffHunkBuilder?, ghost rows: nat, ghost hunks: nat)
    returns (done: seq<DiffFile>)
    modifies current
    ensures Builders(done, null, null, rows, hunks) == Closed(old(Builders(files, current, hunk, rows, hunks)))
  {
    hide FinishHunk, FinishFile;
    FinishHunkIn(current, hunk, files, rows, hunks);
    done := FinishFileIn(files, current, rows, hunks);
  }

  // The body of the loop.
  method Turn(raw: seq<Byte>, files0: seq<DiffFile>, current0: DiffFileBuilder?, hunk0: DiffHunkBuilder?, rows0: nat, hunks0: nat,
              line: Line, next: Option<Line>, limits: Limits)
    returns (stop: Option<Exceeded>, files: seq<DiffFile>, current: DiffFileBuilder?, hunk: DiffHunkBuilder?, rows: nat, hunks: nat, consumed: nat)
    modifies current0, hunk0
    ensures current == null || current == current0 || fresh(current)
    ensures hunk == null || hunk == hunk0 || fresh(hunk)
    ensures Step(raw, old(Builders(files0, current0, hunk0, rows0, hunks0)), line, next, limits) ==
            if stop.Some? then Stop(stop.value) else Next(Builders(files, current, hunk, rows, hunks), consumed)
  {
    hide StepInFile, PatchModel.ApplyHeader, DiffGitPaths, Lossy, FinishFileBuilder, FinishHunkBuilder, WithoutReturn;
    hide Closed, FinishHunk, FinishFile, Complete, DiffHunkBuilder.IsComplete, StartFile, UnifiedPath, ChangeOf, HunkHeader, Clamp, SatSub, SatAdd;
    stop, files, current, hunk, rows, hunks, consumed := None, files0, current0, hunk0, rows0, hunks0, 1;
    var header := WithoutReturn(line.bytes);
    if DIFF_GIT <= header {
      files := FinishBoth(files, current, hunk, rows, hunks);
      current, hunk := null, null;
      if Over(limits.files, |files|) {
        stop := Some(Exceeded(FilesLimit, limits.files.value, |files|));
        return;
      }
      current := new DiffFileBuilder.FromDiffGit(Lossy(header));
      return;
    }
    if hunk != null && hunk.IsComplete() && !([BACKSLASH] <= line.bytes) {
      FinishHunkIn(current, hunk, files, rows, hunks);
      hunk := null;
    }
    if MINUS <= header && hunk == null && (current == null || current.hunks != []) && PLUS <= NextHeader(next) {
      files := FinishBoth(files, current, hunk, rows, hunks);
      current := null;
      if Over(limits.files, |files|) {
        stop := Some(Exceeded(FilesLimit, limits.files.value, |files|));
        return;
      }
      current := new DiffFileBuilder.FromUnifiedHeaders(Lossy(header), Lossy(NextHeader(next)));
      consumed := 2;
      return;
    }
    if current == null { return; }
    stop, hunk, rows, hunks := TurnInFile(raw, files, current, hunk, rows, hunks, line, limits);
  }

  // `parse_patch_bytes_range_limited`
  method ParseRangeLimited(raw: seq<Byte>, lo: nat, hi: nat, limits: Limits) returns (r: Result<seq<DiffFile>, Exceeded>)
    requires lo <= hi
    ensures r == ParseRange(raw, if lo < |raw| then lo else |raw|, if hi < |raw| then hi else |raw|, limits)
  {
    hide Lines, LineEnd, LineAt, After, LineAfter, Step, Run, FinishFile, FinishHunk, ParsedLimits, Builders;
    var at, end := if lo < |raw| then lo else |raw|, if hi < |raw| then hi else |raw|;
    ghost var all := Run(raw, START, Lines(raw, at, end), limits);
    var files: seq<DiffFile> := [];
    var current: DiffFileBuilder? := null;
    var hunk: DiffHunkBuilder? := null;
    var rows, hunks := 0, 0;
    NoBuilders();
    while at < end
      invariant at <= end <= |raw|
      invariant current != null ==> fresh(current)
      invariant hunk != null ==> fresh(hunk)
      invariant Run(raw, Builders(files, current, hunk, rows, hunks), Lines(raw, at, end), limits) == all
      decreases end - at
    {
      RunTurn(raw, Builders(files, current, hunk, rows, hunks), at, end, limits);
      var line, next, after := LineAt(raw, at, end), LineAfter(raw, at, end), After(raw, at, end);
      var stop, consumed;
      stop, files, current, hunk, rows, hunks, consumed := Turn(raw, files, current, hunk, rows, hunks, line, next, limits);
      if stop.Some? { return Err(stop.value); }
      at := if consumed == 2 then After(raw, after, end) else after;
    }
    NoLineLeft(raw, end);
    EmptyRun(raw, Builders(files, current, hunk, rows, hunks), limits);
    FinishHunkIn(current, hunk, files, rows, hunks);
    files := FinishFileIn(files, current, rows, hunks);
    BuiltFiles(files, rows, hunks);
    var e := CheckParsedLimits(files, limits);
    if e.Some? { return Err(e.value); }
    r := Ok(files);
  }

  lemma {:induction false} NoBuilders()
    ensures Builders([], null, null, 0, 0) == START
  {
  }

  lemma {:induction false} BuiltFiles(files: seq<DiffFile>, rows: nat, hunks: nat)
    ensures Builders(files, null, null, rows, hunks).files == files
  {
  }

  lemma {:induction false} EmptyRun(raw: seq<Byte>, s: State, limits: Limits)
    ensures Run(raw, s, [], limits) == Ok(s)
  {
  }
}

// The line machine of the full parser, as a function of its state, and the two facts
// the parallel parser rests on: a limit only cuts runs short, and a `diff --git ` line
// starts afresh.
module PatchParser {
  import opened Wrappers
  import opened Utf8
  import opened GitPaths
  import opened PatchModel

  datatype Limits = Limits(patchBytes: Option<nat>, rows: Option<nat>, files: Option<nat>, hunks: Option<nat>, lineBytes: Option<nat>)
  const UNLIMITED := Limits(None, None, None, None, None)

  datatype LimitKind = FilesLimit | HunksLimit | RowsLimit | LineBytesLimit
  datatype Exceeded = Exceeded(limit: LimitKind, max: nat, actual: nat)

  datatype State = State(files: seq<DiffFile>, current: Option<FileBuilder>, hunk: Option<HunkBuilder>, rows: nat, hunks: nat)

  const START := State([], None, None, 0, 0)

  predicate Over(max: Option<nat>, actual: nat) {
    max.Some? && actual > max.value
  }

  // `finish_hunk`
  function FinishHunk(s: State): State {
    if s.current.Some? && s.hunk.Some? then
      var f, h := s.current.value, s.hunk.value;
      s.(current := Some(f.(additions := SatAdd(f.additions, h.additions), deletions := SatAdd(f.deletions, h.deletions),
                            hunks := f.hunks + [FinishHunkBuilder(h)])),
         hunk := None)
    else s.(hunk := None)
  }

  // `finish_file`
  function FinishFile(s: State): State {
    if s.current.Some? then s.(files := s.files + [FinishFileBuilder(s.current.value)], current := None) else s
  }

  function Closed(s: State): State {
    FinishFile(FinishHunk(s))
  }

  predicate StartsUnified(s: State) {
    s.hunk.None? && (s.current.None? || s.current.value.hunks != [])
  }

  // A complete hunk ends at the first line that is not a backslash line.
  function Settle(s: State, line: Line): State {
    if s.hunk.Some? && Complete(s.hunk.value) && !([BACKSLASH] <= line.bytes) then FinishHunk(s) else s
  }

  datatype Stepped = Next(state: State, consumed: nat) | Stop(error: Exceeded)

  function NextHeader(next: Option<Line>): seq<Byte> {
    if next.Some? then Header(next.value) else []
  }

  function UnifiedFile(header: seq<Byte>, next: seq<Byte>): FileBuilder {
    ApplyHeader(ApplyHeader(StartFile((None, None)), Lossy(header)), Lossy(next))
  }

  // A line of a file: a hunk header, a row of the open hunk, or a header line.
  function StepInFile(raw: seq<Byte>, s: State, line: Line, limits: Limits): Stepped
    requires s.current.Some?
  {
    var header := Header(line);
    if AT <= header then
      var c := FinishHunk(s);
      if Over(limits.hunks, s.hunks + 1) then Stop(Exceeded(HunksLimit, limits.hunks.value, s.hunks + 1))
      else Next(c.(hunks := s.hunks + 1, hunk := Some(StartHunk(Lossy(header)))), 1)
    else if s.hunk.Some? then
      if Over(limits.lineBytes, |line.bytes|) then Stop(Exceeded(LineBytesLimit, limits.lineBytes.value, |line.bytes|))
      else if Over(limits.rows, s.rows + 1) then Stop(Exceeded(RowsLimit, limits.rows.value, s.rows + 1))
      else Next(s.(rows := s.rows + 1, hunk := Some(PushRow(s.hunk.value, raw, line))), 1)
    else Next(s.(current := Some(ApplyHeader(s.current.value, Lossy(header)))), 1)
  }

  // One turn of the loop, with the line after this one for the look-ahead.
  function Step(raw: seq<Byte>, s0: State, line: Line, next: Option<Line>, limits: Limits): Stepped {
    var header := Header(line);
    if DIFF_GIT <= header then
      var c := Closed(s0);
      if Over(limits.files, |c.files|) then Stop(Exceeded(FilesLimit, limits.files.value, |c.files|))
      else Next(c.(current := Some(StartFile(DiffGitPaths(Lossy(header))))), 1)
    else
      var s := Settle(s0, line);
      if MINUS <= header && StartsUnified(s) && PLUS <= NextHeader(next) then
        var c := Closed(s);
        if Over(limits.files, |c.files|) then Stop(Exceeded(FilesLimit, limits.files.value, |c.files|))
        else Next(c.(current := Some(UnifiedFile(header, NextHeader(next)))), 2)
      else if s.current.None? then Next(s, 1)
      else StepInFile(raw, s, line, limits)
  }

  function Peek(lines: seq<Line>): Option<Line> {
    if lines == [] then None else Some(lines[0])
  }

  lemma {:induction false} StepConsumes(raw: seq<Byte>, s: State, line: Line, next: Option<Line>, limits: Limits)
    requires Step(raw, s, line, next, limits).Next?
    ensures Step(raw, s, line, next, limits).consumed == 1 || (next.Some? && Step(raw, s, line, next, limits).consumed == 2)
  {
    assert !(PLUS <= []) by { assert |PLUS| == 4; }
  }

  function Run(raw: seq<Byte>, s: State, lines: seq<Line>, limits: Limits): Result<State, Exceeded>
    decreases |lines|
  {
    if lines == [] then Ok(s)
    else
      match Step(raw, s, lines[0], Peek(lines[1..]), limits)
      case Stop(e) => Err(e)
      case Next(s', n) =>
        StepConsumes(raw, s, lines[0], Peek(lines[1..]), limits);
        Run(raw, s', lines[n..], limits)
  }

  function CountHunks(files: seq<DiffFile>): nat {
    if files == [] then 0 else CountHunks(files[..|files| - 1]) + |Hunks(files[|files| - 1])|
  }

  function CountLines(hunks: seq<Hunk>): nat {
    if hunks == [] then 0 else CountLines(hunks[..|hunks| - 1]) + |hunks[|hunks| - 1].lines|
  }

  function CountRows(files: seq<DiffFile>): nat {
    if files == [] then 0 else CountRows(files[..|files| - 1]) + CountLines(Hunks(files[|files| - 1]))
  }

  // `check_parsed_limits`
  function ParsedLimits(files: seq<DiffFile>, limits: Limits): Option<Exceeded> {
    if Over(limits.files, |files|) then Some(Exceeded(FilesLimit, limits.files.value, |files|))
    else if Over(limits.hunks, CountHunks(files)) then Some(Exceeded(HunksLimit, limits.hunks.value, CountHunks(files)))
    else if Over(limits.rows, CountRows(files)) then Some(Exceeded(RowsLimit, limits.rows.value, CountRows(files)))
    else None
  }

  function Checked(files: seq<DiffFile>, limits: Limits): Result<seq<DiffFile>, Exceeded> {
    var e := ParsedLimits(files, limits);
    if e.Some? then Err(e.value) else Ok(files)
  }

  // `parse_patch_bytes_range_limited`
  function ParseLines(raw: seq<Byte>, lines: seq<Line>, limits: Limits): Result<seq<DiffFile>, Exceeded> {
    match Run(raw, START, lines, limits)
    case Err(e) => Err(e)
    case Ok(s) => Checked(Closed(s).files, limits)
  }

  function ParseRange(raw: seq<Byte>, lo: nat, hi: nat, limits: Limits): Result<seq<DiffFile>, Exceeded>
    requires lo <= hi <= |raw|
  {
    ParseLines(raw, Lines(raw, lo, hi), limits)
  }

  // ---- limits only cut runs short ----

  predicate OnlyLineBytes(limits: Limits) {
    limits.rows.None? && limits.files.None? && limits.hunks.None?
  }

  // The limits a parallel task runs under.
  function TaskLimits(limits: Limits): Limits {
    Limits(None, None, None, None, limits.lineBytes)
  }

  // Whether a run under the line limit alone stayed within the others all along.
  predicate Within(s: State, limits: Limits) {
    !Over(limits.rows, s.rows) && !Over(limits.hunks, s.hunks) && !Over(limits.files, |s.files|)
  }

  lemma {:induction false} StepUnderTaskLimits(raw: seq<Byte>, s: State, line: Line, next: Option<Line>, limits: Limits)
    ensures var a, b := Step(raw, s, line, next, limits), Step(raw, s, line, next, TaskLimits(limits));
            && (a.Next? ==> b == a) && (OnlyLineBytes(limits) ==> a == b)
            && (b.Next? ==>
                  && s.rows <= b.state.rows && s.hunks <= b.state.hunks && |s.files| <= |b.state.files|
                  && (Within(b.state, limits) ==> a == b)
                  && (a.Next? && Within(s, limits) ==> Within(b.state, limits)))
  {
    hide PushRow, StartHunk, ApplyHeader, DiffGitPaths, Lossy, Complete, UnifiedFile, FinishFileBuilder, Header;
  }

  // Under all limits a run ends normally exactly when it does under the line limit
  // alone and its running counts end within the others; both then end in one state.
  lemma {:induction false} RunUnderTaskLimits(raw: seq<Byte>, s: State, lines: seq<Line>, limits: Limits)
    requires Within(s, limits)
    ensures var a, b := Run(raw, s, lines, limits), Run(raw, s, lines, TaskLimits(limits));
            && (a.Ok? <==> b.Ok? && Within(b.value, limits))
            && (a.Ok? ==> a == b) && (OnlyLineBytes(limits) ==> a == b)
    ensures var b := Run(raw, s, lines, TaskLimits(limits));
            b.Ok? ==> s.rows <= b.value.rows && s.hunks <= b.value.hunks && |s.files| <= |b.value.files|
    decreases |lines|
  {
    hide Step, Within;
    if lines != [] {
      StepUnderTaskLimits(raw, s, lines[0], Peek(lines[1..]), limits);
      var b := Step(raw, s, lines[0], Peek(lines[1..]), TaskLimits(limits));
      if b.Next? {
        StepConsumes(raw, s, lines[0], Peek(lines[1..]), TaskLimits(limits));
        if Within(b.state, limits) {
          RunUnderTaskLimits(raw, b.state, lines[b.consumed..], limits);
        } else {
          RunGrows(raw, b.state, lines[b.consumed..], TaskLimits(limits));
          if Run(raw, b.state, lines[b.consumed..], TaskLimits(limits)).Ok? {
            NotWithinLater(b.state, Run(raw, b.state, lines[b.consumed..], TaskLimits(limits)).value, limits);
          }
        }
      }
    }
  }

  lemma {:induction false} NotWithinLater(s: State, t: State, limits: Limits)
    requires !Within(s, limits) && s.rows <= t.rows && s.hunks <= t.hunks && |s.files| <= |t.files|
    ensures !Within(t, limits)
  {
  }

  lemma {:induction false} RunGrows(raw: seq<Byte>, s: State, lines: seq<Line>, limits: Limits)
    ensures Run(raw, s, lines, limits).Ok? ==>
              var t := Run(raw, s, lines, limits).value;
              s.rows <= t.rows && s.hunks <= t.hunks && |s.files| <= |t.files|
    decreases |lines|
  {
    hide Step;
    if lines != [] {
      var b := Step(raw, s, lines[0], Peek(lines[1..]), limits);
      StepUnderTaskLimits(raw, s, lines[0], Peek(lines[1..]), limits);
      if b.Next? {
        StepConsumes(raw, s, lines[0], Peek(lines[1..]), limits);
        RunGrows(raw, b.state, lines[b.consumed..], limits);
      }
    }
  }

  // ---- a `diff --git ` line starts afresh ----

  predicate StartsSection(line: Line) {
    DIFF_GIT <= Header(line)
  }

  lemma {:induction false} SectionIsNoPlus(header: seq<Byte>)
    requires DIFF_GIT <= header
    ensures !(PLUS <= header) && !(MINUS <= header) && !(AT <= header)
  {
    assert header[0] == DIFF_GIT[0] == 100;
    assert PLUS[0] == 43 && MINUS[0] == 45 && AT[0] == 64;
  }

  // Running two stretches of lines one after the other, when the second does not start
  // with a `+++ ` line that the first looks ahead to.
  lemma {:induction false} RunAppend(raw: seq<Byte>, s: State, a: seq<Line>, b: seq<Line>, limits: Limits)
    requires b != [] ==> !(PLUS <= Header(b[0]))
    ensures Run(raw, s, a + b, limits) ==
            match Run(raw, s, a, limits) case Err(e) => Err(e) case Ok(t) => Run(raw, t, b, limits)
    decreases |a|
  {
    hide Step;
    if a == [] {
      assert a + b == b;
    } else {
      var all := a + b;
      assert all[0] == a[0] && all[1..] == a[1..] + b;
      SameStep(raw, s, a[0], Peek(all[1..]), Peek(a[1..]), limits);
      var n := Step(raw, s, a[0], Peek(a[1..]), limits);
      if n.Next? {
        StepConsumes(raw, s, a[0], Peek(a[1..]), limits);
        assert all[n.consumed..] == a[n.consumed..] + b;
        RunAppend(raw, n.state, a[n.consumed..], b, limits);
      }
    }
  }

  lemma {:induction false} SameStep(raw: seq<Byte>, s: State, line: Line, n: Option<Line>, m: Option<Line>, limits: Limits)
    requires n == m || (m.None? && n.Some? && !(PLUS <= Header(n.value)))
    ensures Step(raw, s, line, n, limits) == Step(raw, s, line, m, limits)
  {
    assert !(PLUS <= []) by { assert |PLUS| == 4; }
    hide PushRow, StartHunk, ApplyHeader, DiffGitPaths, Lossy, Complete, UnifiedFile, FinishFileBuilder, Header, Closed, FinishHunk, Settle;
  }

  // A state with more behind it: finished files in front, higher counts.
  function Shift(s: State, files: seq<DiffFile>, rows: nat, hunks: nat): State {
    s.(files := files + s.files, rows := rows + s.rows, hunks := hunks + s.hunks)
  }

  lemma {:induction false} ShiftStep(raw: seq<Byte>, s: State, line: Line, next: Option<Line>, limits: Limits, files: seq<DiffFile>, rows: nat, hunks: nat)
    requires OnlyLineBytes(limits)
    ensures Step(raw, Shift(s, files, rows, hunks), line, next, limits) ==
            match Step(raw, s, line, next, limits)
            case Stop(e) => Stop(e)
            case Next(t, n) => Next(Shift(t, files, rows, hunks), n)
  {
    hide PushRow, StartHunk, ApplyHeader, DiffGitPaths, Lossy, Complete, UnifiedFile, FinishFileBuilder, Header;
    ShiftClosed(s, files, rows, hunks);
    ShiftClosed(Settle(s, line), files, rows, hunks);
  }

  lemma {:induction false} ShiftClosed(s: State, files: seq<DiffFile>, rows: nat, hunks: nat)
    ensures Closed(Shift(s, files, rows, hunks)) == Shift(Closed(s), files, rows, hunks)
    ensures FinishHunk(Shift(s, files, rows, hunks)) == Shift(FinishHunk(s), files, rows, hunks)
  {
    hide FinishFileBuilder;
    if s.current.Some? {
      var f := FinishFileBuilder(FinishHunk(s).current.value);
      assert files + s.files + [f] == files + (s.files + [f]);
    }
  }

  lemma {:induction false} ShiftRun(raw: seq<Byte>, s: State, lines: seq<Line>, limits: Limits, files: seq<DiffFile>, rows: nat, hunks: nat)
    requires OnlyLineBytes(limits)
    ensures Run(raw, Shift(s, files, rows, hunks), lines, limits) ==
            match Run(raw, s, lines, limits) case Err(e) => Err(e) case Ok(t) => Ok(Shift(t, files, rows, hunks))
    decreases |lines|
  {
    hide Step, Shift;
    if lines != [] {
      ShiftStep(raw, s, lines[0], Peek(lines[1..]), limits, files, rows, hunks);
      var n := Step(raw, s, lines[0], Peek(lines[1..]), limits);
      if n.Next? {
        StepConsumes(raw, s, lines[0], Peek(lines[1..]), limits);
        ShiftRun(raw, n.state, lines[n.consumed..], limits, files, rows, hunks);
      }
    }
  }

  // At a section start the run from any state is the run from scratch, shifted.
  lemma {:induction false} SectionRun(raw: seq<Byte>, s: State, lines: seq<Line>, limits: Limits)
    requires OnlyLineBytes(limits) && lines != [] && StartsSection(lines[0])
    ensures Run(raw, s, lines, limits) ==
            match Run(raw, START, lines, limits) case Err(e) => Err(e) case Ok(t) => Ok(Shift(t, Closed(s).files, s.rows, s.hunks))
  {
    hide Closed, DiffGitPaths, Lossy, FinishFileBuilder, PushRow, ApplyHeader;
    ClosedCounts(s);
    var begun := State([], Some(StartFile(DiffGitPaths(Lossy(Header(lines[0]))))), None, 0, 0);
    assert Step(raw, START, lines[0], Peek(lines[1..]), limits) == Next(begun, 1);
    assert Step(raw, s, lines[0], Peek(lines[1..]), limits) == Next(Shift(begun, Closed(s).files, s.rows, s.hunks), 1);
    ShiftRun(raw, begun, lines[1..], limits, Closed(s).files, s.rows, s.hunks);
  }

  lemma {:induction false} ClosedCounts(s: State)
    ensures Closed(s).rows == s.rows && Closed(s).hunks == s.hunks && Closed(s).hunk.None? && Closed(s).current.None?
    ensures Closed(START) == START
  {
  }

  // ---- cutting a patch at section starts ----

  // Under the line limit alone, parsing two stretches and appending the files is
  // parsing both at once, and the first error is the same.
  lemma {:induction false} ParseSplit(raw: seq<Byte>, a: seq<Line>, b: seq<Line>, limits: Limits)
    requires OnlyLineBytes(limits) && b != [] && StartsSection(b[0])
    ensures ParseLines(raw, a + b, limits) ==
            match ParseLines(raw, a, limits)
            case Err(e) => Err(e)
            case Ok(files) =>
              (match ParseLines(raw, b, limits) case Err(e) => Err(e) case Ok(more) => Ok(files + more))
  {
    hide Run, Closed, Shift;
    SectionIsNoPlus(Header(b[0]));
    RunAppend(raw, START, a, b, limits);
    if Run(raw, START, a, limits).Ok? {
      var s := Run(raw, START, a, limits).value;
      SectionRun(raw, s, b, limits);
      if Run(raw, START, b, limits).Ok? {
        var t := Run(raw, START, b, limits).value;
        ShiftClosed(t, Closed(s).files, s.rows, s.hunks);
        ShiftFiles(Closed(t), Closed(s).files, s.rows, s.hunks);
      }
    }
  }

  lemma {:induction false} ShiftFiles(s: State, files: seq<DiffFile>, rows: nat, hunks: nat)
    ensures Shift(s, files, rows, hunks).files == files + s.files
  {
  }
}

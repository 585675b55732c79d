// The stat counter simulates the full parser: on every patch whose lines meet the guard
// below, both find the same files with the same counts.
module StatSimulation {
  import opened Wrappers
  import opened Utf8
  import opened GitPaths
  import opened PatchModel
  import opened PatchPieces
  import opened PatchParser
  import opened HeaderLines
  import opened PatchStats

  // ---- the counter alone: its totals are sums over its files ----

  function Sum(files: seq<PatchFileStat>): Totals {
    if files == [] then Totals(0, 0, 0, 0) else Tally(Sum(files[..|files| - 1]), files[|files| - 1])
  }

  lemma {:induction false} LineKeepsTotals(c: Count, line: seq<Byte>)
    requires c.totals == Sum(c.files)
    ensures CountLine(c, line).totals == Sum(CountLine(c, line).files)
  {
    hide DiffGitPaths, ApplyCount, HunkHeader, Lossy, CountRow, CountChange;
    FinishKeepsTotals(c);
    hide Sum, Tally, FinishCount;
  }

  lemma {:induction false} FinishKeepsTotals(c: Count)
    requires c.totals == Sum(c.files)
    ensures FinishCount(c).totals == Sum(FinishCount(c).files)
  {
    if c.current.Some? { assert (c.files + [FileOf(c.current.value)])[..|c.files|] == c.files; }
  }

  lemma {:induction false} AllKeepTotals(c: Count, lines: seq<seq<Byte>>)
    requires c.totals == Sum(c.files)
    ensures CountAll(c, lines).totals == Sum(CountAll(c, lines).files)
    decreases |lines|
  {
    hide CountLine, Sum;
    if lines != [] {
      LineKeepsTotals(c, lines[0]);
      AllKeepTotals(CountLine(c, lines[0]), lines[1..]);
    }
  }

  // The totals are the sums of the listed files' counts.
  lemma {:induction false} TotalsAddUp(raw: seq<Byte>)
    ensures Stats(raw).totals == Sum(Stats(raw).files)
  {
    hide CountAll;
    AllKeepTotals(NOTHING, Bare(Pieces(raw)));
    FinishKeepsTotals(CountAll(NOTHING, Bare(Pieces(raw))));
  }

  // ---- the guard ----

  function StatLines(lines: seq<Line>): seq<seq<Byte>> {
    if lines == [] then [] else [Header(lines[0])] + StatLines(lines[1..])
  }

  // The rows a side of a new hunk waits for in the parser, whose counter starts at the
  // header's number and whose bound at the clamped one.
  function Left(start: nat, count: nat): nat {
    SatSub(count, start - Clamp(start))
  }

  function RowsLeft(r: Ranges): HunkCount {
    HunkCount(Left(r.oldStart, r.oldCount), Left(r.newStart, r.newCount))
  }

  // A side with more rows than fit a patch never comes to its end in the parser ...
  predicate Far(start: nat, count: nat) {
    count > SatAdd(start, ISIZE_MAX) - Clamp(start)
  }

  predicate TooLong(r: Ranges) {
    Far(r.oldStart, r.oldCount) || Far(r.newStart, r.newCount)
  }

  // ... nor in the counter.
  predicate Endless(k: HunkCount) {
    k.oldRemaining > ISIZE_MAX || k.newRemaining > ISIZE_MAX
  }

  function StillOpen(k: HunkCount): Option<HunkCount> {
    if Used(k) then None else Some(k)
  }

  // A hunk the parser opens and the hunk of the counter wait for the same rows.
  predicate InStep(r: Ranges, k: Option<HunkCount>) {
    if TooLong(r) then k.Some? && Endless(k.value) else k == StillOpen(RowsLeft(r))
  }

  // What a line must not be, given what the counter has seen before it.
  predicate Guard(c: Count, line: seq<Byte>, next: seq<Byte>) {
    // after a hunk header, where the counter may see a row, both wait for the same rows
    if AT <= line && c.current.Some? then InStep(HunkHeader(Lossy(line)), CountLine(c, line).hunk)
    // no row of an open hunk looks like a file header
    else if c.hunk.Some? then !(DIFF_GIT <= line)
    // a `--- ` line that would start a file is followed by its `+++ ` line
    else MINUS <= line && (c.current.None? || c.current.value.seenHunk) ==> PLUS <= next
  }

  function First(lines: seq<seq<Byte>>): seq<Byte> {
    if lines == [] then [] else lines[0]
  }

  predicate Guarded(c: Count, lines: seq<seq<Byte>>)
    decreases |lines|
  {
    lines == [] || (Guard(c, lines[0], First(lines[1..])) && Guarded(CountLine(c, lines[0]), lines[1..]))
  }

  // ---- the relation ----

  predicate SameFile(f: DiffFile, g: PatchFileStat) {
    f.additions == g.additions && f.deletions == g.deletions && (f.body.Binary? <==> g.isBinary)
  }

  predicate SameFiles(fs: seq<DiffFile>, gs: seq<PatchFileStat>) {
    |fs| == |gs| && forall k :: 0 <= k < |fs| ==> SameFile(fs[k], gs[k])
  }

  function Added(s: State): nat { if s.hunk.Some? then s.hunk.value.additions else 0 }

  function Deleted(s: State): nat { if s.hunk.Some? then s.hunk.value.deletions else 0 }

  predicate FilesLinked(s: State, c: Count, i: nat) {
    && SameFiles(s.files, c.files)
    && (s.current.Some? <==> c.current.Some?)
    && (s.hunk.Some? ==> s.current.Some?)
    && (s.current.Some? ==>
          var f, g := s.current.value, c.current.value;
          && g.additions == f.additions + Added(s) <= i
          && g.deletions == f.deletions + Deleted(s) <= i
          && g.isBinary == f.binary
          && g.seenHunk == (f.hunks != [] || s.hunk.Some?))
  }

  // A side whose counter does not saturate before its last row.
  predicate Roomy(start: nat, count: nat, line: nat) {
    start <= line <= USIZE_MAX && line + SatSub(count, line - start) <= USIZE_MAX
  }

  function Remaining(h: HunkBuilder): HunkCount {
    HunkCount(SatSub(h.ranges.oldCount, SatSub(h.oldLine, h.ranges.oldStart)),
              SatSub(h.ranges.newCount, SatSub(h.newLine, h.ranges.newStart)))
  }

  // The counter drops a hunk when it is complete, the parser at the next line.
  predicate NearLinked(h: HunkBuilder, k: Option<HunkCount>) {
    && Roomy(h.ranges.oldStart, h.ranges.oldCount, h.oldLine)
    && Roomy(h.ranges.newStart, h.ranges.newCount, h.newLine)
    && k == StillOpen(Remaining(h))
  }

  // A hunk that is too long stays open in both.
  predicate FarLinked(h: HunkBuilder, k: HunkCount, i: nat) {
    var r, n := HunkHeader(h.header), |h.lines|;
    && n <= i && h.oldLine <= USIZE_MAX && h.newLine <= USIZE_MAX
    && h.ranges == Ranges(Clamp(r.oldStart), r.oldCount, Clamp(r.newStart), r.newCount)
    && ((Far(r.oldStart, r.oldCount) && h.oldLine <= SatAdd(r.oldStart, n)) || (Far(r.newStart, r.newCount) && h.newLine <= SatAdd(r.newStart, n)))
    && (k.oldRemaining + n > ISIZE_MAX || k.newRemaining + n > ISIZE_MAX)
  }

  predicate HunkLinked(s: State, c: Count, i: nat) {
    if s.hunk.None? then c.hunk.None?
    else NearLinked(s.hunk.value, c.hunk) || (c.hunk.Some? && FarLinked(s.hunk.value, c.hunk.value, i))
  }

  lemma {:induction false} CompleteIsUsed(h: HunkBuilder)
    ensures Complete(h) <==> Used(Remaining(h))
  {
  }

  lemma {:induction false} FarStaysOpen(h: HunkBuilder, k: Option<HunkCount>, i: nat)
    requires i <= ISIZE_MAX
    ensures k.Some? && FarLinked(h, k.value, i) ==> !Complete(h) && !Used(k.value)
  {
    hide HunkHeader;
  }

  predicate Linked(s: State, c: Count, i: nat) {
    FilesLinked(s, c, i) && HunkLinked(s, c, i)
  }

  // ---- one line ----

  lemma {:induction false} FinishHunkLinked(s: State, c: Count, i: nat)
    requires FilesLinked(s, c, i) && i <= ISIZE_MAX
    ensures FilesLinked(FinishHunk(s), c, i) && FinishHunk(s).hunk.None? && FinishHunk(s).current.Some? == s.current.Some?
  {
    hide SameFiles;
  }

  lemma {:induction false} ClosedLinked(s: State, c: Count, i: nat)
    requires FilesLinked(s, c, i) && i <= ISIZE_MAX
    ensures SameFiles(Closed(s).files, FinishCount(c).files)
    ensures Closed(s).hunk.None? && Closed(s).current.None? && FinishCount(c).current.None? && FinishCount(c).hunk == c.hunk
  {
    FinishHunkLinked(s, c, i);
    hide FinishHunk;
    var t := FinishHunk(s);
    if t.current.Some? {
      var f, g := FinishFileBuilder(t.current.value), FileOf(c.current.value);
      assert SameFile(f, g);
      assert forall k :: 0 <= k < |t.files + [f]| ==> (t.files + [f])[k] == if k < |t.files| then t.files[k] else f;
    }
  }

  // What a row does to the builder, told by the line the counter sees.
  lemma {:induction false} RowTells(h: HunkBuilder, raw: seq<Byte>, line: Line)
    ensures var g, b := PushRow(h, raw, line), Header(line);
            && g.ranges == h.ranges
            && g.additions == SatAdd(h.additions, if b != [] && b[0] == 43 then 1 else 0)
            && g.deletions == SatAdd(h.deletions, if b != [] && b[0] == 45 then 1 else 0)
            && g.oldLine == SatAdd(h.oldLine, if b != [] && (b[0] == 43 || b[0] == BACKSLASH) then 0 else 1)
            && g.newLine == SatAdd(h.newLine, if b != [] && (b[0] == 45 || b[0] == BACKSLASH) then 0 else 1)
            && |h.lines| + (if b != [] && b[0] == BACKSLASH then 0 else 1) <= |g.lines| <= |h.lines| + 1
    requires h.additions <= ISIZE_MAX && h.deletions <= ISIZE_MAX && h.oldLine <= USIZE_MAX && h.newLine <= USIZE_MAX
  {
    hide SpanWithin, Clamp;
    assert line.bytes != [] ==> line.bytes[0] == RETURN || (Header(line) != [] && Header(line)[0] == line.bytes[0]);
    assert line.bytes != [] && line.bytes[0] == RETURN && Header(line) != [] ==> Header(line)[0] == RETURN;
  }

  // What it does to the counter.
  lemma {:induction false} CountsRow(c: Count, b: seq<Byte>)
    requires c.hunk.Some? && c.current.Some?
    ensures var n, f := CountLine(c, b), c.current.value;
            && n.files == c.files && n.current.Some?
            && n.current.value == f.(additions := f.additions + if b != [] && b[0] == 43 then 1 else 0,
                                     deletions := f.deletions + if b != [] && b[0] == 45 then 1 else 0)
            && n.hunk == StillOpen(CountRow(c.hunk.value, b))
  {
    hide CountHeader, CountRow;
  }

  lemma {:induction false} RowNear(h: HunkBuilder, k: HunkCount, raw: seq<Byte>, line: Line)
    requires NearLinked(h, Some(k)) && h.additions <= ISIZE_MAX && h.deletions <= ISIZE_MAX
    ensures NearLinked(PushRow(h, raw, line), StillOpen(CountRow(k, Header(line))))
  {
    RowTells(h, raw, line);
    hide PushRow, Header;
  }

  lemma {:induction false} RowFar(h: HunkBuilder, k: HunkCount, i: nat, raw: seq<Byte>, line: Line)
    requires FarLinked(h, k, i) && i < ISIZE_MAX && h.additions <= ISIZE_MAX && h.deletions <= ISIZE_MAX
    ensures FarLinked(PushRow(h, raw, line), CountRow(k, Header(line)), i + 1)
  {
    RowTells(h, raw, line);
    PushKeepsHeader(h, raw, line);
    hide PushRow, Header, HunkHeader, Clamp, Complete;
  }

  lemma {:induction false} PushKeepsHeader(h: HunkBuilder, raw: seq<Byte>, line: Line)
    ensures PushRow(h, raw, line).header == h.header
  {
    hide SpanWithin;
  }

  lemma {:induction false} LinkBounds(s: State, c: Count, i: nat)
    requires Linked(s, c, i) && i <= ISIZE_MAX && s.hunk.Some?
    ensures var h := s.hunk.value; h.additions <= ISIZE_MAX && h.deletions <= ISIZE_MAX && h.oldLine <= USIZE_MAX && h.newLine <= USIZE_MAX
  {
    hide SameFiles, HunkHeader, Complete, Remaining;
  }

  lemma {:induction false} RowFiles(raw: seq<Byte>, s: State, c: Count, i: nat, line: Line, rows: nat)
    requires FilesLinked(s, c, i) && i < ISIZE_MAX && s.hunk.Some? && c.hunk.Some?
    requires s.hunk.value.oldLine <= USIZE_MAX && s.hunk.value.newLine <= USIZE_MAX
    ensures FilesLinked(s.(rows := rows, hunk := Some(PushRow(s.hunk.value, raw, line))), CountLine(c, Header(line)), i + 1)
  {
    RowTells(s.hunk.value, raw, line);
    CountsRow(c, Header(line));
    hide PushRow, SameFiles, CountLine, Header, CountRow, Used, Clamp;
  }

  // A row of an open hunk.
  lemma {:induction false} RowLinked(raw: seq<Byte>, s: State, c: Count, i: nat, line: Line, rows: nat)
    requires Linked(s, c, i) && i < ISIZE_MAX && s.hunk.Some? && !Complete(s.hunk.value)
    ensures Linked(s.(rows := rows, hunk := Some(PushRow(s.hunk.value, raw, line))), CountLine(c, Header(line)), i + 1)
  {
    hide PushRow, FilesLinked, CountLine, Header, FarLinked, NearLinked, CountRow, Used, Complete;
    var h, k := s.hunk.value, c.hunk;
    LinkFacts(s, c, i);
    LinkBounds(s, c, i);
    RowFiles(raw, s, c, i, line, rows);
    CountsRow(c, Header(line));
    if NearLinked(h, k) {
      RowNear(h, k.value, raw, line);
    } else {
      RowFar(h, k.value, i, raw, line);
      FarStaysOpen(PushRow(h, raw, line), Some(CountRow(k.value, Header(line))), i + 1);
    }
  }

  // ---- the counter on header lines, told by the bytes of the line ----

  lemma {:induction false} CountsFile(c: Count, header: seq<Byte>)
    requires c.hunk.None? && DIFF_GIT <= header
    ensures exists f: FileCount :: CountLine(c, header) == FinishCount(c).(current := Some(f)) && f.(oldPath := None, newPath := None) == NO_FILE
  {
    SamePrefixes(header);
    hide DiffGitPaths, FinishCount, Lossy;
    var paths := DiffGitPaths(Lossy(header));
    var f := NO_FILE.(oldPath := paths.0, newPath := paths.1);
    assert CountLine(c, header) == FinishCount(c).(current := Some(f));
  }

  lemma {:induction false} CountsMinus(c: Count, header: seq<Byte>)
    requires c.hunk.None? && MINUS <= header
    ensures var d := if c.current.Some? && c.current.value.seenHunk then FinishCount(c) else c;
            CountLine(c, header) == d.(current := Some(ApplyCount(if d.current.Some? then d.current.value else NO_FILE, Lossy(header))))
  {
    SamePrefixes(header);
    OneKind(header);
    hide FinishCount, Lossy, ApplyCount;
  }

  lemma {:induction false} CountsOpen(c: Count, header: seq<Byte>)
    requires c.hunk.None? && c.current.Some? && AT <= header
    ensures CountLine(c, header) == c.(current := Some(c.current.value.(seenHunk := true)), hunk := Some(HunkOf(Lossy(header))))
  {
    SamePrefixes(header);
    OneKind(header);
    hide FinishCount, Lossy, ApplyCount, HunkOf;
  }

  lemma {:induction false} CountsHeader(c: Count, header: seq<Byte>)
    requires c.hunk.None? && !(DIFF_GIT <= header) && !(AT <= header)
    requires MINUS <= header ==> c.current.Some? && !c.current.value.seenHunk
    ensures CountLine(c, header) == if c.current.None? then c else c.(current := Some(ApplyCount(c.current.value, Lossy(header))))
  {
    SamePrefixes(header);
    hide FinishCount, Lossy, ApplyCount;
  }

  // A backslash line after a hunk's last row: a meta row to the parser, nothing to the counter.
  lemma {:induction false} BackslashLinked(raw: seq<Byte>, s: State, c: Count, i: nat, line: Line, rows: nat)
    requires Linked(s, c, i) && i <= ISIZE_MAX && s.hunk.Some? && Complete(s.hunk.value) && [BACKSLASH] <= line.bytes
    ensures Linked(s.(rows := rows, hunk := Some(PushRow(s.hunk.value, raw, line))), CountLine(c, Header(line)), i + 1)
  {
    var header := Header(line);
    BackslashIsNoHeader(line);
    CountsHeader(c, header);
    SamePrefixes(header);
    OneKind(Lossy(header));
    ApplyCountKeeps(c.current.value, Lossy(header));
    BackslashPush(s.hunk.value, raw, line);
    hide SameFiles, Lossy, Header, CountLine, ApplyCount, PushRow, BinaryMarker, Roomy, FarLinked;
    FarStaysOpen(s.hunk.value, c.hunk, i);
  }

  lemma {:induction false} BackslashPush(h: HunkBuilder, raw: seq<Byte>, line: Line)
    requires [BACKSLASH] <= line.bytes
    ensures var g := PushRow(h, raw, line); g == h.(lines := g.lines)
  {
    hide SpanWithin;
  }

  lemma {:induction false} BackslashIsNoHeader(line: Line)
    requires [BACKSLASH] <= line.bytes
    ensures Header(line) != [] && Header(line)[0] == BACKSLASH
    ensures !(AT <= Header(line)) && !(DIFF_GIT <= Header(line)) && !(MINUS <= Header(line))
  {
    OneKind(Header(line));
  }

  lemma {:induction false} SettleLinked(s: State, c: Count, i: nat, line: Line)
    requires Linked(s, c, i) && i <= ISIZE_MAX
    ensures Linked(Settle(s, line), c, i)
    ensures Settle(s, line).hunk.Some? ==> [BACKSLASH] <= line.bytes || !Complete(Settle(s, line).hunk.value)
  {
    FinishHunkLinked(s, c, i);
    hide FilesLinked, FinishHunk, Complete;
  }

  // A `diff --git ` line, outside every hunk the counter has open.
  lemma {:induction false} FileLinked(s: State, c: Count, i: nat, header: seq<Byte>)
    requires Linked(s, c, i) && i <= ISIZE_MAX && c.hunk.None? && DIFF_GIT <= header
    ensures Linked(Closed(s).(current := Some(StartFile(DiffGitPaths(Lossy(header))))), CountLine(c, header), i + 1)
  {
    ClosedLinked(s, c, i);
    CountsFile(c, header);
    hide Closed, FinishCount, DiffGitPaths, Lossy, SameFiles, CountLine;
  }

  // The `--- ` and `+++ ` lines of a new file.
  lemma {:induction false} UnifiedLinked(s: State, c: Count, i: nat, header: seq<Byte>, next: seq<Byte>)
    requires Linked(s, c, i) && i <= ISIZE_MAX && MINUS <= header && PLUS <= next && StartsUnified(s)
    ensures Linked(Closed(s).(current := Some(UnifiedFile(header, next))), CountLine(CountLine(c, header), next), i + 2)
  {
    hide Closed, FinishCount, Lossy, SameFiles, ApplyCount, UnifiedFile, CountLine, BinaryMarker;
    ClosedLinked(s, c, i);
    NoFileToFinish(c);
    OneKind(next);
    UnifiedCounts(header, next);
    CountsMinus(c, header);
    ApplyCountKeeps(NO_FILE, Lossy(header));
    CountsHeader(CountLine(c, header), next);
    ApplyCountKeeps(ApplyCount(NO_FILE, Lossy(header)), Lossy(next));
  }

  lemma {:induction false} NoFileToFinish(c: Count)
    ensures c.current.None? ==> FinishCount(c) == c
  {
  }

  lemma {:induction false} ApplyCountKeeps(f: FileCount, line: seq<Byte>)
    ensures var g := ApplyCount(f, line);
            && g.additions == f.additions && g.deletions == f.deletions && g.seenHunk == f.seenHunk
            && g.isBinary == (f.isBinary || BinaryMarker(line))
  {
    hide UnifiedPath, MetadataPath, BinaryMarker;
  }

  // A hunk header, or a row that looks like one: the files.
  lemma {:induction false} OpenFiles(s: State, c: Count, i: nat, header: seq<Byte>, hunks: nat)
    requires Linked(s, c, i) && i <= ISIZE_MAX && c.current.Some? && AT <= header
    ensures FilesLinked(FinishHunk(s).(hunks := hunks, hunk := Some(StartHunk(Lossy(header)))), CountLine(c, header), i + 1)
  {
    FinishHunkLinked(s, c, i);
    LinkFacts(s, c, i);
    CountsAt(c, header);
    StartsEmpty(Lossy(header));
    hide FinishHunk, HunkHeader, SameFiles, Lossy, CountLine, StartHunk, HunkLinked;
  }

  lemma {:induction false} StartsEmpty(header: seq<Byte>)
    ensures var h, r := StartHunk(header), HunkHeader(header);
            && h.additions == 0 && h.deletions == 0 && h.lines == [] && h.header == header
            && h.oldLine == r.oldStart && h.newLine == r.newStart
            && h.ranges == Ranges(Clamp(r.oldStart), r.oldCount, Clamp(r.newStart), r.newCount)
  {
    hide HunkHeader;
  }

  // ... and the hunk.
  lemma {:induction false} OpenLinked(s: State, c: Count, i: nat, header: seq<Byte>, hunks: nat)
    requires Linked(s, c, i) && i <= ISIZE_MAX && c.current.Some? && AT <= header && Guard(c, header, [])
    ensures Linked(FinishHunk(s).(hunks := hunks, hunk := Some(StartHunk(Lossy(header)))), CountLine(c, header), i + 1)
  {
    OpenFiles(s, c, i, header, hunks);
    GuardOpens(c, header);
    hide Guard, FinishHunk, HunkHeader, FilesLinked, Lossy, CountLine, StartHunk, NearLinked, FarLinked, HunkOf, InStep;
    StartsOpen(Lossy(header), CountLine(c, header).hunk, i + 1);
  }

  lemma {:induction false} GuardOpens(c: Count, header: seq<Byte>)
    requires c.current.Some? && AT <= header
    ensures Guard(c, header, []) == InStep(HunkHeader(Lossy(header)), CountLine(c, header).hunk)
  {
    hide HunkHeader, Lossy, CountLine, InStep;
  }

  // What it does to the counter's file.
  lemma {:induction false} CountsAt(c: Count, header: seq<Byte>)
    requires c.current.Some? && AT <= header
    ensures var n := CountLine(c, header);
            && n.files == c.files && n.current.Some?
            && n.current.value == c.current.value.(seenHunk := c.current.value.seenHunk || c.hunk.None?)
  {
    assert AT[0] == 64;
    hide HunkHeader, Lossy, CountRow, CountHeader;
    if c.hunk.None? { CountsOpen(c, header); }
  }

  lemma {:induction false} StartsOpen(header: seq<Byte>, k: Option<HunkCount>, i: nat)
    requires InStep(HunkHeader(header), k)
    ensures NearLinked(StartHunk(header), k) || (k.Some? && FarLinked(StartHunk(header), k.value, i))
  {
    hide HunkHeader;
  }

  // Any other header line of a file.
  lemma {:induction false} HeaderLinked(s: State, c: Count, i: nat, header: seq<Byte>)
    requires Linked(s, c, i) && s.hunk.None? && s.current.Some? && !(DIFF_GIT <= header) && !(AT <= header)
    requires MINUS <= header ==> !c.current.value.seenHunk
    ensures Linked(s.(current := Some(ApplyHeader(s.current.value, Lossy(header)))), CountLine(c, header), i + 1)
  {
    hide ApplyHeader, ApplyCount, Lossy, SameFiles, BinaryMarker, CountLine, StatusLine;
    CountsHeader(c, header);
    ApplyHeaderKeeps(s.current.value, Lossy(header));
    ApplyCountKeeps(c.current.value, Lossy(header));
  }

  // A line before the first file.
  lemma {:induction false} NoFileLinked(s: State, c: Count, i: nat, header: seq<Byte>)
    requires Linked(s, c, i) && s.current.None? && !(DIFF_GIT <= header) && !(MINUS <= header)
    ensures Linked(s, CountLine(c, header), i + 1)
  {
    SamePrefixes(header);
    hide Lossy, SameFiles;
  }

  predicate StepLinked(n: Stepped, c: Count, i: nat, header: seq<Byte>, next: seq<Byte>) {
    n.Next? ==>
      if n.consumed == 1 then Linked(n.state, CountLine(c, header), i + 1)
      else Linked(n.state, CountLine(CountLine(c, header), next), i + 2)
  }

  lemma {:induction false} OneLine(n: Stepped, c: Count, i: nat, header: seq<Byte>)
    requires n.Next? ==> n.consumed == 1 && Linked(n.state, CountLine(c, header), i + 1)
    ensures StepLinked(n, c, i, header, [])
  {
    hide Linked, CountLine;
  }

  lemma {:induction false} InFileStep(raw: seq<Byte>, s: State, c: Count, i: nat, line: Line, limits: Limits)
    requires Linked(s, c, i) && i < ISIZE_MAX && s.current.Some? && !(DIFF_GIT <= Header(line))
    requires s.hunk.Some? ==> [BACKSLASH] <= line.bytes || !Complete(s.hunk.value)
    requires Guard(c, Header(line), [])
    ensures StepInFile(raw, s, line, limits).Next? ==> StepInFile(raw, s, line, limits).consumed == 1
    ensures StepLinked(StepInFile(raw, s, line, limits), c, i, Header(line), [])
  {
    hide Linked, PushRow, StartHunk, ApplyHeader, CountLine, FinishHunk, Lossy, Complete, HunkHeader, Guard, Header, StepLinked, Over;
    var header := Header(line);
    LinkFacts(s, c, i);
    GuardFacts(c, header);
    var n := StepInFile(raw, s, line, limits);
    if s.hunk.Some? && Complete(s.hunk.value) {
      BackslashIsNoHeader(line);
      BackslashLinked(raw, s, c, i, line, s.rows + 1);
      assert n.Next? ==> n == Next(s.(rows := s.rows + 1, hunk := Some(PushRow(s.hunk.value, raw, line))), 1);
    } else if AT <= header {
      OpenLinked(s, c, i, header, s.hunks + 1);
    } else if s.hunk.Some? {
      RowLinked(raw, s, c, i, line, s.rows + 1);
      assert n.Next? ==> n == Next(s.(rows := s.rows + 1, hunk := Some(PushRow(s.hunk.value, raw, line))), 1);
    } else {
      HeaderLinked(s, c, i, header);
    }
    OneLine(n, c, i, header);
  }

  lemma {:induction false} GuardFacts(c: Count, header: seq<Byte>)
    requires Guard(c, header, [])
    ensures c.hunk.Some? && !(AT <= header) ==> !(DIFF_GIT <= header)
    ensures c.hunk.None? && MINUS <= header ==> c.current.Some? && !c.current.value.seenHunk
  {
    OneKind(header);
    assert !(PLUS <= []) by { assert |PLUS| == 4; }
    hide HunkHeader, InStep;
  }

  lemma {:induction false} LinkFacts(s: State, c: Count, i: nat)
    requires Linked(s, c, i) && i <= ISIZE_MAX
    ensures s.current.Some? <==> c.current.Some?
    ensures s.hunk.Some? ==> s.current.Some? && c.current.value.seenHunk
    ensures s.current.Some? && s.hunk.None? ==> (c.current.value.seenHunk <==> s.current.value.hunks != [])
    ensures c.hunk.Some? <==> s.hunk.Some? && !Complete(s.hunk.value)
    ensures SameFiles(s.files, c.files)
  {
    hide SameFiles, Complete, FarLinked, Used, Roomy, Remaining;
    if s.hunk.Some? {
      FarStaysOpen(s.hunk.value, c.hunk, i);
      CompleteIsUsed(s.hunk.value);
    }
  }

  lemma {:induction false} StepLinks(raw: seq<Byte>, s: State, c: Count, i: nat, line: Line, next: Option<Line>, limits: Limits)
    requires Linked(s, c, i) && i < ISIZE_MAX && Guard(c, Header(line), NextHeader(next))
    ensures StepLinked(Step(raw, s, line, next, limits), c, i, Header(line), NextHeader(next))
  {
    hide Linked, Closed, Settle, StepInFile, UnifiedFile, DiffGitPaths, Lossy, CountLine, Header, Complete, HunkHeader, NextHeader;
    var header, after := Header(line), NextHeader(next);
    if DIFF_GIT <= header {
      GuardFile(c, header, after);
      FileLinked(s, c, i, header);
    } else {
      SettleLinked(s, c, i, line);
      var t := Settle(s, line);
      LinkFacts(t, c, i);
      if MINUS <= header && StartsUnified(t) && PLUS <= after {
        UnifiedLinked(t, c, i, header, after);
      } else if t.current.None? {
        GuardNoFile(t, c, header, after);
        NoFileLinked(t, c, i, header);
      } else {
        GuardInFile(t, c, line, after);
        InFileStep(raw, t, c, i, line, limits);
        StepInFileOnce(raw, t, line, limits, c, i, after);
      }
    }
  }

  lemma {:induction false} StepInFileOnce(raw: seq<Byte>, t: State, line: Line, limits: Limits, c: Count, i: nat, next: seq<Byte>)
    requires t.current.Some? && (StepInFile(raw, t, line, limits).Next? ==> StepInFile(raw, t, line, limits).consumed == 1)
    requires StepLinked(StepInFile(raw, t, line, limits), c, i, Header(line), [])
    ensures StepLinked(StepInFile(raw, t, line, limits), c, i, Header(line), next)
  {
    hide StepInFile, Linked, CountLine, Header;
  }

  lemma {:induction false} GuardFile(c: Count, header: seq<Byte>, next: seq<Byte>)
    requires Guard(c, header, next) && DIFF_GIT <= header
    ensures c.hunk.None?
  {
    hide HunkHeader, Lossy;
  }

  lemma {:induction false} GuardNoFile(s: State, c: Count, header: seq<Byte>, next: seq<Byte>)
    requires Guard(c, header, next) && s.current.None? && c.current.None? && c.hunk.None? && s.hunk.None?
    requires !(MINUS <= header && StartsUnified(s) && PLUS <= next)
    ensures !(MINUS <= header)
  {
    hide HunkHeader, Lossy;
    OneKind(header);
  }

  lemma {:induction false} GuardInFile(s: State, c: Count, line: Line, next: seq<Byte>)
    requires Guard(c, Header(line), next) && s.current.Some? && c.current.Some?
    requires s.hunk.None? ==> (c.current.value.seenHunk <==> s.current.value.hunks != [])
    requires s.hunk.Some? ==> [BACKSLASH] <= line.bytes || !Complete(s.hunk.value)
    requires c.hunk.Some? <==> s.hunk.Some? && !Complete(s.hunk.value)
    requires !(MINUS <= Header(line) && StartsUnified(s) && PLUS <= next)
    ensures Guard(c, Header(line), [])
  {
    hide HunkHeader, Lossy, Header, Complete;
    if [BACKSLASH] <= line.bytes { BackslashIsNoHeader(line); }
  }

  // The guard asks for no more than the link needs: a line that breaks it leaves parser
  // and counter apart.
  lemma {:induction false} GuardIsNeeded(raw: seq<Byte>, s: State, c: Count, i: nat, line: Line, next: Option<Line>, limits: Limits)
    requires Linked(s, c, i) && i < ISIZE_MAX && !Guard(c, Header(line), NextHeader(next))
    ensures var n := Step(raw, s, line, next, limits);
            n.Next? ==> n.consumed == 1 && !Linked(n.state, CountLine(c, Header(line)), i + 1)
  {
    hide Linked, Closed, Settle, UnifiedFile, DiffGitPaths, Lossy, CountLine, Header, Complete, HunkHeader, NextHeader, FinishHunk;
    hide ApplyHeader, StartHunk, PushRow, InStep, SameFiles, Guard, Over;
    var header, after := Header(line), NextHeader(next);
    GuardFails(c, header, after);
    if DIFF_GIT <= header {
      LinkFacts(s, c, i);
      FileApart(s, c, i, header);
      Unlinked(Closed(s).(current := Some(StartFile(DiffGitPaths(Lossy(header))))), CountLine(c, header), i + 1);
    } else {
      SettleLinked(s, c, i, line);
      var t := Settle(s, line);
      LinkFacts(t, c, i);
      if AT <= header {
        HunkApart(t, c, i, line);
      } else {
        if [BACKSLASH] <= line.bytes { BackslashIsNoHeader(line); }
        MinusApart(t, c, i, line);
      }
    }
  }

  lemma {:induction false} GuardFails(c: Count, line: seq<Byte>, next: seq<Byte>)
    requires !Guard(c, line, next)
    ensures AT <= line && c.current.Some? ==> !InStep(HunkHeader(Lossy(line)), CountLine(c, line).hunk)
    ensures AT <= line ==> !(MINUS <= line) && !(DIFF_GIT <= line) && (c.current.Some? || c.hunk.Some?)
    ensures !(AT <= line) && c.hunk.Some? ==> DIFF_GIT <= line
    ensures !(AT <= line) && c.hunk.None? ==> MINUS <= line && (c.current.None? || c.current.value.seenHunk) && !(PLUS <= next)
    ensures DIFF_GIT <= line ==> c.hunk.Some?
    ensures MINUS <= line ==> !(DIFF_GIT <= line)
  {
    OneKind(line);
    hide InStep, HunkHeader, Lossy, CountLine;
  }

  lemma {:induction false} Unlinked(s: State, c: Count, i: nat)
    requires !SameFiles(s.files, c.files)
    ensures !Linked(s, c, i)
  {
    hide SameFiles;
  }

  // A `diff --git ` row: a new file to the parser only.
  lemma {:induction false} FileApart(s: State, c: Count, i: nat, header: seq<Byte>)
    requires Linked(s, c, i) && c.hunk.Some?
    ensures !SameFiles(Closed(s).files, CountLine(c, header).files)
  {
    hide FinishFileBuilder, CountHeader, Lossy, SameFile, CountRow, CountChange;
  }

  // A hunk header after which the two wait for different rows.
  lemma {:induction false} HunkApart(s: State, c: Count, i: nat, line: Line)
    requires !InStep(HunkHeader(Lossy(Header(line))), CountLine(c, Header(line)).hunk)
    ensures forall t: State :: t.hunk == Some(StartHunk(Lossy(Header(line)))) ==> !Linked(t, CountLine(c, Header(line)), i + 1)
  {
    StartsApart(Lossy(Header(line)), CountLine(c, Header(line)).hunk, i + 1);
    hide Header, CountLine, FilesLinked, Lossy, NearLinked, FarLinked, StartHunk, InStep;
  }

  lemma {:induction false} StartsApart(header: seq<Byte>, k: Option<HunkCount>, i: nat)
    requires !InStep(HunkHeader(header), k)
    ensures !NearLinked(StartHunk(header), k) && (k.Some? ==> !FarLinked(StartHunk(header), k.value, i))
  {
    hide HunkHeader;
  }

  // A `--- ` line alone: a new file to the counter only.
  lemma {:induction false} MinusApart(s: State, c: Count, i: nat, line: Line)
    requires Linked(s, c, i) && c.hunk.None? && MINUS <= Header(line) && (c.current.None? || c.current.value.seenHunk)
    ensures s.current.None? ==> !Linked(s, CountLine(c, Header(line)), i + 1)
    ensures forall t: State :: t.files == s.files && s.current.Some? ==> !Linked(t, CountLine(c, Header(line)), i + 1)
  {
    CountsMinus(c, Header(line));
    hide ApplyCount, Lossy, Header, CountLine, SameFile;
  }

  // ---- whole runs ----

  lemma {:induction false} RunLinked(raw: seq<Byte>, s: State, c: Count, i: nat, lines: seq<Line>, limits: Limits)
    requires Linked(s, c, i) && i + |lines| <= ISIZE_MAX && Guarded(c, StatLines(lines))
    ensures var r := Run(raw, s, lines, limits); r.Ok? ==> Linked(r.value, CountAll(c, StatLines(lines)), i + |lines|)
    decreases |lines|
  {
    hide Linked, Step, CountLine, Guard, Header;
    if lines != [] {
      var next := Peek(lines[1..]);
      StatLinesTail(lines);
      StepLinks(raw, s, c, i, lines[0], next, limits);
      var n := Step(raw, s, lines[0], next, limits);
      if n.Next? {
        StepConsumes(raw, s, lines[0], next, limits);
        if n.consumed == 1 {
          RunLinked(raw, n.state, CountLine(c, Header(lines[0])), i + 1, lines[1..], limits);
        } else {
          StatLinesTail(lines[1..]);
          assert lines[1..][1..] == lines[2..];
          RunLinked(raw, n.state, CountLine(CountLine(c, Header(lines[0])), Header(lines[1])), i + 2, lines[2..], limits);
        }
      }
    }
  }

  lemma {:induction false} StatLinesTail(lines: seq<Line>)
    requires lines != []
    ensures StatLines(lines) != [] && StatLines(lines)[0] == Header(lines[0]) && StatLines(lines)[1..] == StatLines(lines[1..])
    ensures First(StatLines(lines[1..])) == NextHeader(Peek(lines[1..]))
  {
    hide Header;
  }

  // ---- the lines both machines read ----

  function Trim(contents: seq<seq<Byte>>): seq<seq<Byte>> {
    if contents == [] then [] else [WithoutReturn(contents[0])] + Trim(contents[1..])
  }

  lemma {:induction false} StatLinesTrim(lines: seq<Line>)
    ensures StatLines(lines) == Trim(Contents(lines))
    decreases |lines|
  {
    hide WithoutReturn;
    if lines != [] {
      StatLinesTrim(lines[1..]);
      assert Contents(lines)[1..] == Contents(lines[1..]);
    }
  }

  lemma {:induction false} BareTrim(pieces: seq<seq<Byte>>)
    ensures Bare(pieces) == Trim(PieceContents(pieces))
    decreases |pieces|
  {
    if pieces != [] {
      PartsJoin(pieces[0]);
      hide WithoutReturn, LineParts, Content;
      BareTrim(pieces[1..]);
      assert PieceContents(pieces)[1..] == PieceContents(pieces[1..]);
    }
  }

  lemma {:induction false} SameLines(raw: seq<Byte>)
    ensures StatLines(Lines(raw, 0, |raw|)) == Bare(Pieces(raw))
  {
    hide Lines, Pieces;
    PiecesAreLines(raw, 0);
    assert raw[0..] == raw;
    StatLinesTrim(Lines(raw, 0, |raw|));
    BareTrim(Pieces(raw));
  }

  // On every patch that meets the guard, whenever the full parser accepts it, the
  // streaming counter lists the same files in order, with the same additions, deletions
  // and binary flags.
  lemma {:induction false} StatsSimulateParser(raw: seq<Byte>, limits: Limits)
    requires |raw| <= ISIZE_MAX && Guarded(NOTHING, Bare(Pieces(raw)))
    ensures var r := ParseRange(raw, 0, |raw|, limits); r.Ok? ==> SameFiles(r.value, Stats(raw).files)
  {
    hide Lines, Pieces, Run, CountAll, Guarded, ParsedLimits, SameFiles;
    var lines := Lines(raw, 0, |raw|);
    LinesInPatch(raw, 0, |raw|);
    SameLines(raw);
    NothingLinked();
    RunLinked(raw, START, NOTHING, 0, lines, limits);
    var r := Run(raw, START, lines, limits);
    if r.Ok? { EndLinked(r.value, CountAll(NOTHING, Bare(Pieces(raw))), |lines|); }
    hide Closed, FinishCount;
  }

  lemma {:induction false} EndLinked(s: State, c: Count, i: nat)
    requires Linked(s, c, i) && i <= ISIZE_MAX
    ensures SameFiles(Closed(s).files, FinishCount(c).files)
  {
    hide SameFiles, HunkLinked;
    ClosedLinked(s, c, i);
  }

  lemma {:induction false} NothingLinked()
    ensures Linked(START, NOTHING, 0)
  {
  }

  // ---- the guard's third clause on a whole patch ----

  // A patch of nothing but `--- `: no file to the parser, one file to the counter.
  lemma {:induction false} LoneMinus()
    ensures ParseRange(MINUS, 0, |MINUS|, UNLIMITED) == Ok([])
    ensures |Stats(MINUS).files| == 1
    ensures !Guarded(NOTHING, Bare(Pieces(MINUS)))
  {
    MinusLines();
    OneKind(MINUS);
    assert !(PLUS <= []) by { assert |PLUS| == 4; }
    CountsMinus(NOTHING, MINUS);
    var c := CountLine(NOTHING, MINUS);
    assert c.current.Some? && c.files == [] by { hide ApplyCount, Lossy, CountLine; }
    assert CountAll(NOTHING, [MINUS]) == c by { assert [MINUS][1..] == []; }
    hide Lossy, ApplyCount, CountLine;
    assert Step(MINUS, START, Line(0, MINUS), None, UNLIMITED) == Next(START, 1);
    assert [Line(0, MINUS)][1..] == [];
    assert Closed(START) == START;
  }

  lemma {:induction false} MinusLines()
    ensures Lines(MINUS, 0, |MINUS|) == [Line(0, MINUS)] && Header(Line(0, MINUS)) == MINUS && Bare(Pieces(MINUS)) == [MINUS]
  {
    assert MINUS[0] == 45 && MINUS[1] == 45 && MINUS[2] == 45 && MINUS[3] == 32 && |MINUS| == 4;
    assert LineEnd(MINUS, 4, 4) == 4;
    assert LineEnd(MINUS, 3, 4) == 4;
    assert LineEnd(MINUS, 2, 4) == 4;
    assert LineEnd(MINUS, 1, 4) == 4;
    assert LineEnd(MINUS, 0, 4) == 4;
    assert MINUS[0..4] == MINUS && MINUS[..4] == MINUS && MINUS[4..] == [];
  }
}

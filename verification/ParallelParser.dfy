// The parallel parser: headers found in chunks, files grouped into contiguous tasks,
// each parsed on its own, and the proof that the result is the serial parser's.
module ParallelParser {
  import opened Wrappers
  import opened Utf8
  import opened GitPaths
  import opened PatchModel
  import opened PatchParser
  import ParserLoop
  import opened PatchCounts

  // ---- section starts ----

  predicate LineStart(raw: seq<Byte>, i: nat) {
    i == 0 || (i <= |raw| && raw[i - 1] == NEWLINE)
  }

  predicate At(s: seq<Byte>, i: nat, needle: seq<Byte>) {
    i + |needle| <= |s| && s[i..i + |needle|] == needle
  }

  // `diff --git ` stands at `i`.
  predicate HeaderAt(raw: seq<Byte>, i: nat) {
    At(raw, i, DIFF_GIT)
  }

  predicate SectionAt(raw: seq<Byte>, i: nat) {
    LineStart(raw, i) && HeaderAt(raw, i)
  }

  // All section starts in [lo, hi), ascending: what one sequential scan finds.
  function Starts(raw: seq<Byte>, lo: nat, hi: nat): (r: seq<nat>)
    requires lo <= hi
    ensures forall i :: i in r <==> lo <= i < hi && SectionAt(raw, i)
    ensures forall a, b :: 0 <= a < b < |r| ==> r[a] < r[b]
    decreases hi - lo
  {
    if lo == hi then []
    else
      var rest := Starts(raw, lo, hi - 1);
      assert forall k :: 0 <= k < |rest| ==> rest[k] in rest;
      rest + (if SectionAt(raw, hi - 1) then [hi - 1] else [])
  }

  lemma {:induction false} StartsConcat(raw: seq<Byte>, lo: nat, mid: nat, hi: nat)
    requires lo <= mid <= hi
    ensures Starts(raw, lo, hi) == Starts(raw, lo, mid) + Starts(raw, mid, hi)
    decreases hi - mid
  {
    hide SectionAt;
    if mid < hi { StartsConcat(raw, lo, mid, hi - 1); }
  }

  lemma {:induction false} NoStarts(raw: seq<Byte>, lo: nat, hi: nat)
    requires lo <= hi && forall i :: lo <= i < hi ==> !SectionAt(raw, i)
    ensures Starts(raw, lo, hi) == []
    decreases hi - lo
  {
    hide SectionAt;
    if lo < hi { NoStarts(raw, lo, hi - 1); }
  }

  lemma {:induction false} StartsStep(raw: seq<Byte>, lo: nat, i: nat)
    requires lo <= i
    ensures Starts(raw, lo, i + 1) == Starts(raw, lo, i) + (if SectionAt(raw, i) then [i] else [])
  {
  }

  lemma {:induction false} StartsNone(raw: seq<Byte>, lo: nat)
    ensures Starts(raw, lo, lo) == []
  {
  }

  // `memmem::find`: the first place where `needle` stands in s[from..end].
  function Find(s: seq<Byte>, from: nat, end: nat, needle: seq<Byte>): (r: Option<nat>)
    requires from <= end <= |s|
    ensures r.Some? ==> from <= r.value && r.value + |needle| <= end && At(s, r.value, needle)
    ensures forall i: nat :: At(s, i, needle) && from <= i && i + |needle| <= end ==> r.Some? && r.value <= i
    decreases end - from
  {
    if from + |needle| > end then None
    else if At(s, from, needle) then Some(from)
    else if from == end then None
    else Find(s, from + 1, end, needle)
  }

  // One chunk of the scan; it may look past its end by a header less one byte.
  method ScanChunk(raw: seq<Byte>, lo: nat, hi: nat) returns (starts: seq<nat>)
    requires lo <= hi <= |raw|
    ensures starts == Starts(raw, lo, hi)
  {
    hide At, SectionAt, Starts, Find;
    starts := [];
    StartsNone(raw, lo);
    var at := lo;
    var end := if hi + (|DIFF_GIT| - 1) < |raw| then hi + (|DIFF_GIT| - 1) else |raw|;
    while at < hi
      invariant lo <= at <= hi
      invariant starts == Starts(raw, lo, at)
    {
      var found := Find(raw, at, end, DIFF_GIT);
      var next := if found.Some? && found.value < hi then found.value else hi;
      Skipped(raw, at, next, end);
      StartsConcat(raw, lo, at, next);
      assert starts == Starts(raw, lo, next);
      if found.None? || found.value >= hi { return; }
      FoundHeader(raw, next);
      StartsStep(raw, lo, next);
      if next == 0 || raw[next - 1] == NEWLINE { starts := starts + [next]; }
      at := next + 1;
    }
  }

  lemma {:induction false} FoundHeader(raw: seq<Byte>, i: nat)
    requires At(raw, i, DIFF_GIT)
    ensures SectionAt(raw, i) <==> i == 0 || raw[i - 1] == NEWLINE
  {
  }

  // Nothing starts before the place the search found, or before the end of the chunk.
  lemma {:induction false} Skipped(raw: seq<Byte>, at: nat, next: nat, end: nat)
    requires at <= next && end <= |raw|
    requires forall i: nat :: At(raw, i, DIFF_GIT) && at <= i < next ==> end < i + |DIFF_GIT|
    requires end == |raw| || next + (|DIFF_GIT| - 1) <= end
    ensures Starts(raw, at, next) == []
  {
    forall i | at <= i < next ensures !SectionAt(raw, i) {
      assert HeaderAt(raw, i) ==> i + |DIFF_GIT| <= end;
    }
    NoStarts(raw, at, next);
  }

  function CeilDiv(a: nat, b: nat): nat
    requires 0 < b
  {
    (a + b - 1) / b
  }

  datatype Section = Section(start: nat, end: nat)

  function Sections(starts: seq<nat>, len: nat): (r: seq<Section>)
    ensures |r| == |starts|
    ensures forall k :: 0 <= k < |r| ==> r[k] == Section(starts[k], if k + 1 < |starts| then starts[k + 1] else len)
  {
    seq(|starts|, k requires 0 <= k < |starts| => Section(starts[k], if k + 1 < |starts| then starts[k + 1] else len))
  }

  // `diff_git_sections_parallel`, its tasks run in order: for any number of threads the
  // starts are exactly those of one sequential scan.
  method DiffGitSections(raw: seq<Byte>, threads: nat) returns (sections: seq<Section>)
    requires raw != [] && 0 < threads
    ensures sections == Sections(Starts(raw, 0, |raw|), |raw|)
  {
    var chunks := if threads < |raw| then threads else |raw|;
    var chunkLen := CeilDiv(|raw|, chunks);
    CeilPositive(|raw|, chunks);
    var starts: seq<nat> := [];
    var lo := 0;
    while lo < |raw|
      invariant lo <= |raw| && starts == Starts(raw, 0, lo)
    {
      var hi := if lo + chunkLen < |raw| then lo + chunkLen else |raw|;
      var more := ScanChunk(raw, lo, hi);
      StartsConcat(raw, 0, lo, hi);
      starts := starts + more;
      lo := hi;
    }
    sections := Sections(starts, |raw|);
  }

  lemma {:induction false} CeilPositive(a: nat, b: nat)
    requires 0 < a && 0 < b
    ensures 0 < CeilDiv(a, b)
  {
  }

  // `has_multiple_diff_git_sections`
  method HasMultipleSections(raw: seq<Byte>) returns (many: bool)
    ensures many <==> HeaderAt(raw, 0) && exists i :: 0 < i < |raw| && SectionAt(raw, i)
  {
    if !(DIFF_GIT <= raw) {
      assert !HeaderAt(raw, 0);
      return false;
    }
    var at := 1;
    while at < |raw|
      invariant 1 <= at && forall i :: 0 < i < at && i < |raw| ==> !SectionAt(raw, i)
      decreases |raw| - at
    {
      var found := Find(raw, at, |raw|, DIFF_GIT);
      if found.None? { return false; }
      if raw[found.value - 1] == NEWLINE {
        assert SectionAt(raw, found.value);
        return true;
      }
      at := found.value + 1;
    }
    many := false;
  }

  // ---- grouping sections into tasks ----

  // Non-empty ranges that begin sections and follow one another from lo to hi.
  predicate Chained(raw: seq<Byte>, lo: nat, hi: nat, ranges: seq<Section>) {
    && (if ranges == [] then lo == hi else ranges[0].start == lo && ranges[|ranges| - 1].end == hi)
    && (forall k :: 0 <= k < |ranges| ==> ranges[k].start < ranges[k].end <= |raw| && SectionAt(raw, ranges[k].start))
    && forall k :: 0 <= k < |ranges| - 1 ==> ranges[k].end == ranges[k + 1].start
  }

  // The ranges cover [lo, |raw|) without a gap, none is empty, and each begins a section.
  predicate Tasks(raw: seq<Byte>, lo: nat, ranges: seq<Section>) {
    ranges != [] && Chained(raw, lo, |raw|, ranges)
  }

  lemma {:induction false} ChainOn(raw: seq<Byte>, lo: nat, mid: nat, hi: nat, ranges: seq<Section>)
    requires Chained(raw, lo, mid, ranges) && mid < hi <= |raw| && SectionAt(raw, mid)
    ensures Chained(raw, lo, hi, ranges + [Section(mid, hi)])
  {
    hide SectionAt;
  }

  // The grouping loop of `parse_patch_bytes_parallel`.
  method GroupSections(raw: seq<Byte>, sections: seq<Section>, threads: nat) returns (ranges: seq<Section>)
    requires sections != [] && sections == Sections(Starts(raw, 0, |raw|), |raw|) && 0 < threads
    ensures Tasks(raw, sections[0].start, ranges) && |ranges| <= threads
  {
    hide SectionAt, Chained;
    var starts := Starts(raw, 0, |raw|);
    var tasks := if threads < |sections| then threads else |sections|;
    var target := CeilDiv(|raw|, tasks);
    ranges := [];
    var taskStart := sections[0].start;
    assert starts[0] in starts;
    EmptyChain(raw, taskStart);
    for index := 0 to |sections|
      invariant |ranges| < tasks
      invariant taskStart in starts && taskStart <= sections[|sections| - 1].start
      invariant index < |sections| ==> taskStart <= sections[index].start
      invariant Chained(raw, sections[0].start, taskStart, ranges)
    {
      var section := sections[index];
      var canSplit := |ranges| + 1 < tasks && index + 1 < |sections|;
      if canSplit && SatSub(section.end, taskStart) >= target {
        assert starts[index + 1] in starts;
        ChainOn(raw, sections[0].start, taskStart, section.end, ranges);
        ranges := ranges + [Section(taskStart, section.end)];
        taskStart := sections[index + 1].start;
      }
    }
    assert starts[|starts| - 1] in starts;
    ChainOn(raw, sections[0].start, taskStart, |raw|, ranges);
    ranges := ranges + [Section(taskStart, sections[|sections| - 1].end)];
  }

  lemma {:induction false} EmptyChain(raw: seq<Byte>, lo: nat)
    ensures Chained(raw, lo, lo, [])
  {
  }

  // ---- lines of a range ----

  lemma {:induction false} LineEndLocal(raw: seq<Byte>, lo: nat, mid: nat, hi: nat)
    requires lo <= mid <= hi <= |raw| && (lo < mid ==> raw[mid - 1] == NEWLINE)
    ensures lo < mid ==> LineEnd(raw, lo, hi) == LineEnd(raw, lo, mid) < mid
    decreases mid - lo
  {
    if lo < mid && raw[lo] != NEWLINE { LineEndLocal(raw, lo + 1, mid, hi); }
  }

  lemma {:induction false} LinesUnfold(raw: seq<Byte>, lo: nat, hi: nat)
    requires lo < hi <= |raw| && LineEnd(raw, lo, hi) < hi
    ensures Lines(raw, lo, hi) == [Line(lo, raw[lo..LineEnd(raw, lo, hi)])] + Lines(raw, LineEnd(raw, lo, hi) + 1, hi)
  {
  }

  lemma {:induction false} ConsConcat<T>(x: T, a: seq<T>, b: seq<T>)
    ensures [x] + (a + b) == ([x] + a) + b
  {
  }

  lemma {:induction false} NilConcat<T>(a: seq<T>)
    ensures [] + a == a
  {
  }

  // Lines do not cross a line start.
  lemma {:induction false} LinesSplit(raw: seq<Byte>, lo: nat, mid: nat, hi: nat)
    requires lo <= mid <= hi <= |raw| && (lo < mid ==> raw[mid - 1] == NEWLINE)
    ensures Lines(raw, lo, hi) == Lines(raw, lo, mid) + Lines(raw, mid, hi)
    decreases mid - lo
  {
    hide Lines, LineEnd;
    if lo == mid {
      ParserLoop.NoLineLeft(raw, mid);
      NilConcat(Lines(raw, mid, hi));
    } else {
      LineEndLocal(raw, lo, mid, hi);
      var e := LineEnd(raw, lo, mid);
      LinesUnfold(raw, lo, hi);
      LinesUnfold(raw, lo, mid);
      LinesSplit(raw, e + 1, mid, hi);
      ConsConcat(Line(lo, raw[lo..e]), Lines(raw, e + 1, mid), Lines(raw, mid, hi));
    }
  }

  lemma {:induction false} SectionFirstLine(raw: seq<Byte>, lo: nat, hi: nat)
    requires SectionAt(raw, lo) && lo + |DIFF_GIT| <= hi <= |raw|
    ensures Lines(raw, lo, hi) != [] && StartsSection(Lines(raw, lo, hi)[0])
  {
    var e := LineEnd(raw, lo, hi);
    assert |DIFF_GIT| == 11;
    assert forall k :: 0 <= k < 11 ==> DIFF_GIT[k] != NEWLINE;
    var head := raw[lo..lo + 11];
    assert forall k :: 0 <= k < 11 ==> raw[lo + k] == head[k];
    assert raw[lo..e][..11] == raw[lo..lo + 11] == DIFF_GIT;
    assert DIFF_GIT[10] == 32;
    assert Lines(raw, lo, hi)[0] == Line(lo, raw[lo..e]);
    var header := WithoutReturn(raw[lo..e]);
    assert |header| >= 11 && header[..11] == DIFF_GIT;
  }

  // ---- the ranges together ----

  // What the workers give, in order; the first error wins.
  function ParseTasks(raw: seq<Byte>, ranges: seq<Section>, limits: Limits): Result<seq<DiffFile>, Exceeded>
    requires forall k :: 0 <= k < |ranges| ==> ranges[k].start < ranges[k].end <= |raw|
  {
    if ranges == [] then Ok([])
    else
      match ParseRange(raw, ranges[0].start, ranges[0].end, TaskLimits(limits))
      case Err(e) => Err(e)
      case Ok(files) =>
        match ParseTasks(raw, ranges[1..], limits)
        case Err(e) => Err(e)
        case Ok(more) => Ok(files + more)
  }

  lemma {:induction false} TasksTail(raw: seq<Byte>, lo: nat, ranges: seq<Section>)
    requires Tasks(raw, lo, ranges) && 1 < |ranges|
    ensures Tasks(raw, ranges[0].end, ranges[1..])
  {
    hide SectionAt;
    var rest := ranges[1..];
    forall k | 0 <= k < |rest| - 1 ensures rest[k].end == rest[k + 1].start {
      assert ranges[k + 1].end == ranges[k + 2].start;
    }
  }

  lemma {:induction false} SectionFits(raw: seq<Byte>, i: nat)
    requires SectionAt(raw, i)
    ensures i + |DIFF_GIT| <= |raw| && (0 < i ==> raw[i - 1] == NEWLINE)
  {
  }

  lemma {:induction false} TasksAreWhole(raw: seq<Byte>, lo: nat, ranges: seq<Section>, limits: Limits)
    requires Tasks(raw, lo, ranges)
    ensures lo <= |raw| && ParseTasks(raw, ranges, limits) == ParseRange(raw, lo, |raw|, TaskLimits(limits))
    decreases |ranges|
  {
    hide SectionAt, ParseLines;
    if |ranges| == 1 {
      assert ranges[1..] == [];
      match ParseRange(raw, lo, |raw|, TaskLimits(limits))
      case Err(_) =>
      case Ok(files) => assert files + [] == files;
    } else {
      var mid := ranges[0].end;
      TasksTail(raw, lo, ranges);
      TasksAreWhole(raw, mid, ranges[1..], limits);
      SectionFits(raw, mid);
      LinesSplit(raw, lo, mid, |raw|);
      SectionFirstLine(raw, mid, |raw|);
      ParseSplit(raw, Lines(raw, lo, mid), Lines(raw, mid, |raw|), TaskLimits(limits));
    }
  }

  // ---- refinement ----

  function Serial(raw: seq<Byte>, limits: Limits): Result<seq<DiffFile>, Exceeded> {
    ParseRange(raw, 0, |raw|, limits)
  }

  function Parallel(raw: seq<Byte>, ranges: seq<Section>, limits: Limits): Result<seq<DiffFile>, Exceeded>
    requires forall k :: 0 <= k < |ranges| ==> ranges[k].start < ranges[k].end <= |raw|
  {
    match ParseTasks(raw, ranges, limits)
    case Err(e) => Err(e)
    case Ok(files) => Checked(files, limits)
  }

  // The rows and hunks the serial parser counts as it goes: it also counts `\ No newline`
  // markers and the rows and hunks of binary files, which the finished files do not show.
  function RunningCounts(raw: seq<Byte>, limits: Limits): (nat, nat) {
    match Run(raw, START, Lines(raw, 0, |raw|), TaskLimits(limits))
    case Err(_) => (0, 0)
    case Ok(s) => (s.rows, s.hunks)
  }

  // For every patch, every way of grouping its sections into tasks and all limits: what
  // the serial parser accepts, the parallel one returns; without row, file and hunk
  // limits they agree on errors too; and the parallel parser accepts more only when
  // the serial parser's running counts pass a limit that the finished files respect.
  lemma {:induction false} ParallelRefinesSerial(raw: seq<Byte>, ranges: seq<Section>, limits: Limits)
    requires Tasks(raw, 0, ranges)
    ensures Serial(raw, limits).Ok? ==> Parallel(raw, ranges, limits) == Serial(raw, limits)
    ensures OnlyLineBytes(limits) ==> Parallel(raw, ranges, limits) == Serial(raw, limits)
    ensures Serial(raw, limits).Ok? <==>
              && Parallel(raw, ranges, limits).Ok?
              && !Over(limits.rows, RunningCounts(raw, limits).0)
              && !Over(limits.hunks, RunningCounts(raw, limits).1)
  {
    hide Run, Tasks, CountRows, CountHunks, Lines, ParseTasks;
    TasksAreWhole(raw, 0, ranges, limits);
    RunUnderTaskLimits(raw, START, Lines(raw, 0, |raw|), limits);
    var b := Run(raw, START, Lines(raw, 0, |raw|), TaskLimits(limits));
    if b.Ok? { ClosedHasFiles(b.value); }
    hide Closed;
  }

  lemma {:induction false} ClosedHasFiles(s: State)
    ensures |s.files| <= |Closed(s).files|
  {
  }

  // However the sections are grouped, the parallel parser gives what one parse under the
  // line limit gives, checked against the other limits at the end.
  function Whole(raw: seq<Byte>, limits: Limits): Result<seq<DiffFile>, Exceeded> {
    match ParseRange(raw, 0, |raw|, TaskLimits(limits))
    case Err(e) => Err(e)
    case Ok(files) => Checked(files, limits)
  }

  lemma {:induction false} ParallelIsWhole(raw: seq<Byte>, ranges: seq<Section>, limits: Limits)
    requires Tasks(raw, 0, ranges)
    ensures forall k :: 0 <= k < |ranges| ==> ranges[k].start < ranges[k].end <= |raw|
    ensures Parallel(raw, ranges, limits) == Whole(raw, limits)
  {
    TasksInRange(raw, 0, ranges);
    hide Tasks, ParseRange, ParseTasks, Checked;
    TasksAreWhole(raw, 0, ranges, limits);
  }

  // When the parallel parser accepts a patch, the serial one does too exactly when the
  // limits also hold for what the finished files do not show: rows and hunks of binary
  // files, and no-newline markers.
  lemma {:induction false} LimitsAgree(raw: seq<Byte>, ranges: seq<Section>, limits: Limits)
    requires Tasks(raw, 0, ranges) && Parallel(raw, ranges, limits).Ok?
    ensures var files, lines := Parallel(raw, ranges, limits).value, Lines(raw, 0, |raw|);
            var b := BuiltFiles(raw, START, lines, TaskLimits(limits));
            && files == Finished(b)
            && (Serial(raw, limits).Ok? <==>
                  && !Over(limits.rows, CountRows(files) + RowsOf(Binaries(b)) + MetIn(raw, START, lines, TaskLimits(limits)).markers)
                  && !Over(limits.hunks, CountHunks(files) + HunksOf(Binaries(b))))
  {
    hide Tasks, Run, BuiltFiles, MetIn, HunksOf, RowsOf, Binaries, CountHunks, CountRows, Finished, Lines, Closed, ParseTasks, Parallel, Serial, Whole;
    hide RunningCounts, Over;
    ParallelIsWhole(raw, ranges, limits);
    ParallelRefinesSerial(raw, ranges, limits);
    WholeFiles(raw, limits);
    ParsedCounts(raw, Lines(raw, 0, |raw|), TaskLimits(limits));
  }

  lemma {:induction false} WholeFiles(raw: seq<Byte>, limits: Limits)
    requires Whole(raw, limits).Ok?
    ensures var t := Run(raw, START, Lines(raw, 0, |raw|), TaskLimits(limits));
            t.Ok? && Whole(raw, limits).value == Closed(t.value).files && RunningCounts(raw, limits) == (t.value.rows, t.value.hunks)
  {
    hide Run, Closed, Lines, ParsedLimits;
  }

  // ---- the whole entry point ----

  const PARALLEL_PARSE_MIN_BYTES := 8 * 1024 * 1024
  const PARALLEL_PARSE_MAX_TASKS := 4

  // The workers' results in order, the first error first.
  method RunTasks(raw: seq<Byte>, ranges: seq<Section>, limits: Limits) returns (r: Result<seq<DiffFile>, Exceeded>)
    requires forall k :: 0 <= k < |ranges| ==> ranges[k].start < ranges[k].end <= |raw|
    ensures r == ParseTasks(raw, ranges, limits)
  {
    hide ParseRange;
    var files: seq<DiffFile> := [];
    assert ranges[0..] == ranges;
    assert forall rest: seq<DiffFile> :: files + rest == rest;
    for k := 0 to |ranges|
      invariant ParseTasks(raw, ranges, limits) ==
                match ParseTasks(raw, ranges[k..], limits) case Err(e) => Err(e) case Ok(more) => Ok(files + more)
    {
      var result := ParserLoop.ParseRangeLimited(raw, ranges[k].start, ranges[k].end, TaskLimits(limits));
      assert ranges[k..][1..] == ranges[k + 1..];
      match result
      case Err(e) => return Err(e);
      case Ok(more) =>
        assert forall rest: seq<DiffFile> :: files + (more + rest) == files + more + rest;
        files := files + more;
    }
    assert files + [] == files;
    r := Ok(files);
  }

  // The patch is large and has more than one section, and the pool more than one thread.
  ghost predicate Splits(raw: seq<Byte>, poolThreads: nat, minBytes: nat) {
    minBytes <= |raw| && 1 < poolThreads && HeaderAt(raw, 0) && exists i :: 0 < i < |raw| && SectionAt(raw, i)
  }

  ghost function Entry(raw: seq<Byte>, limits: Limits, poolThreads: nat, minBytes: nat): Result<seq<DiffFile>, Exceeded> {
    if Splits(raw, poolThreads, minBytes) then Whole(raw, limits) else Serial(raw, limits)
  }

  // `parse_patch_bytes_limited`: tries the parallel parser and falls back to the serial
  // one.  `minBytes` is `PARALLEL_PARSE_MIN_BYTES`, or 512 bytes in the repository's own
  // test builds.
  method ParsePatch(raw: seq<Byte>, limits: Limits, poolThreads: nat, minBytes: nat) returns (r: Result<seq<DiffFile>, Exceeded>)
    requires 0 < poolThreads && 0 < minBytes
    ensures r == Entry(raw, limits, poolThreads, minBytes)
    ensures Serial(raw, limits).Ok? ==> r == Serial(raw, limits)
    ensures OnlyLineBytes(limits) ==> r == Serial(raw, limits)
    ensures r.Ok? ==>
              || r == Serial(raw, limits)
              || Over(limits.rows, RunningCounts(raw, limits).0) || Over(limits.hunks, RunningCounts(raw, limits).1)
  {
    hide Serial, Parallel, Whole, Starts, Tasks, SectionAt, RunningCounts;
    var many := HasMultipleSections(raw);
    var threads := if poolThreads < PARALLEL_PARSE_MAX_TASKS then poolThreads else PARALLEL_PARSE_MAX_TASKS;
    if |raw| < minBytes || !many || threads <= 1 {
      r := ParserLoop.ParseRangeLimited(raw, 0, |raw|, limits);
      SerialIs(raw, limits);
      return;
    }
    var sections := DiffGitSections(raw, poolThreads);
    FirstSection(raw);
    var ranges := GroupSections(raw, sections, threads);
    TasksInRange(raw, 0, ranges);
    ParallelRefinesSerial(raw, ranges, limits);
    ParallelIsWhole(raw, ranges, limits);
    var parsed := RunTasks(raw, ranges, limits);
    ParallelIs(raw, ranges, limits);
    match parsed
    case Err(e) => r := Err(e);
    case Ok(files) => r := Checked(files, limits);
  }

  lemma {:induction false} SerialIs(raw: seq<Byte>, limits: Limits)
    ensures Serial(raw, limits) == ParseRange(raw, 0, |raw|, limits)
  {
  }

  lemma {:induction false} ParallelIs(raw: seq<Byte>, ranges: seq<Section>, limits: Limits)
    requires forall k :: 0 <= k < |ranges| ==> ranges[k].start < ranges[k].end <= |raw|
    ensures Parallel(raw, ranges, limits) ==
            match ParseTasks(raw, ranges, limits) case Err(e) => Err(e) case Ok(files) => Checked(files, limits)
  {
  }

  lemma {:induction false} TasksInRange(raw: seq<Byte>, lo: nat, ranges: seq<Section>)
    requires Tasks(raw, lo, ranges)
    ensures forall k :: 0 <= k < |ranges| ==> ranges[k].start < ranges[k].end <= |raw|
  {
  }

  // A patch that begins with a header has its first section at 0.
  lemma {:induction false} FirstSection(raw: seq<Byte>)
    requires HeaderAt(raw, 0)
    ensures Starts(raw, 0, |raw|) != [] && Starts(raw, 0, |raw|)[0] == 0
  {
    var r := Starts(raw, 0, |raw|);
    assert SectionAt(raw, 0) && 0 in r;
    assert r[0] in r;
  }
}

// What the parser keeps of every row: the hunks of a parsed patch are stretches of its
// lines, row for row, and the counts of a file are the counts of its rows.
module PatchRows {
  import opened Wrappers
  import opened Utf8
  import opened GitPaths
  import opened PatchModel
  import opened PatchParser
  import opened HeaderLines
  import opened PatchCounts

  predicate OldSide(row: Row) { row.Context? || row.Deletion? }

  predicate NewSide(row: Row) { row.Context? || row.Addition? }

  function CountOld(rows: seq<Row>): (n: nat)
    ensures n <= |rows|
  {
    if rows == [] then 0 else CountOld(rows[..|rows| - 1]) + if OldSide(rows[|rows| - 1]) then 1 else 0
  }

  function CountNew(rows: seq<Row>): (n: nat)
    ensures n <= |rows|
  {
    if rows == [] then 0 else CountNew(rows[..|rows| - 1]) + if NewSide(rows[|rows| - 1]) then 1 else 0
  }

  function CountAdditions(rows: seq<Row>): (n: nat)
    ensures n <= |rows|
  {
    if rows == [] then 0 else CountAdditions(rows[..|rows| - 1]) + if rows[|rows| - 1].Addition? then 1 else 0
  }

  function CountDeletions(rows: seq<Row>): (n: nat)
    ensures n <= |rows|
  {
    if rows == [] then 0 else CountDeletions(rows[..|rows| - 1]) + if rows[|rows| - 1].Deletion? then 1 else 0
  }

  function Additions(hunks: seq<Hunk>): nat {
    if hunks == [] then 0 else Additions(hunks[..|hunks| - 1]) + CountAdditions(hunks[|hunks| - 1].lines)
  }

  function Deletions(hunks: seq<Hunk>): nat {
    if hunks == [] then 0 else Deletions(hunks[..|hunks| - 1]) + CountDeletions(hunks[|hunks| - 1].lines)
  }

  // ---- a row and its line ----

  // The lines that become rows: all but the no-newline markers.
  function Kept(lines: seq<Line>): (r: seq<Line>)
    ensures |r| <= |lines|
  {
    if lines == [] then []
    else Kept(lines[..|lines| - 1]) + if Marker(lines[|lines| - 1]) then [] else [lines[|lines| - 1]]
  }

  predicate Signed(line: Line) {
    line.bytes != [] && (line.bytes[0] == 43 || line.bytes[0] == 45 || line.bytes[0] == SPACE)
  }

  // The row has the line's kind and its exact bytes without the sign.
  predicate RowIs(row: Row, line: Line) {
    && (row.Addition? <==> line.bytes != [] && line.bytes[0] == 43)
    && (row.Deletion? <==> line.bytes != [] && line.bytes[0] == 45)
    && (row.Meta? <==> line.bytes != [] && line.bytes[0] == BACKSLASH)
    && TextBytes(row.text) == ExactText(if Signed(line) then line.bytes[1..] else line.bytes, U32_MAX)
  }

  predicate RowsAre(rows: seq<Row>, lines: seq<Line>) {
    |rows| == |lines| && forall k :: 0 <= k < |rows| ==> RowIs(rows[k], lines[k])
  }

  // Old and new numbers run consecutively from the hunk's starts, clamped to 32 bits.
  predicate Numbered(ranges: Ranges, rows: seq<Row>) {
    forall k :: 0 <= k < |rows| ==>
      && (OldSide(rows[k]) ==> rows[k].oldLine == Clamp(ranges.oldStart + CountOld(rows[..k])))
      && (NewSide(rows[k]) ==> rows[k].newLine == Clamp(ranges.newStart + CountNew(rows[..k])))
  }

  // ---- a hunk and its stretch of lines ----

  predicate HeadedBy(header: seq<Byte>, ranges: Ranges, line: Line) {
    && AT <= Header(line) && header == Lossy(Header(line))
    && var r := HunkHeader(header);
       ranges == Ranges(Clamp(r.oldStart), r.oldCount, Clamp(r.newStart), r.newCount)
  }

  // What the parser takes for enough rows on a side: as many as announced, less by what
  // a start past 32 bits loses to the bound it is compared with.
  predicate SideMet(start: nat, count: nat, n: nat) {
    count <= SatAdd(start, n) - Clamp(start)
  }

  lemma {:induction false} SideMetIs(start: nat, count: nat, n: nat)
    requires start <= USIZE_MAX && n <= ISIZE_MAX
    ensures start <= U32_MAX ==> (SideMet(start, count, n) <==> count <= n)
    ensures U32_MAX < start && start + n <= USIZE_MAX ==> (SideMet(start, count, n) <==> count <= n + (start - U32_MAX))
    ensures USIZE_MAX < start + n ==> (SideMet(start, count, n) <==> count <= USIZE_MAX - U32_MAX)
  {
  }

  // Both counts the header announces are met by these rows' lines.
  predicate RangesMet(header: seq<Byte>, rows: seq<Row>) {
    var r := HunkHeader(header);
    SideMet(r.oldStart, r.oldCount, CountOld(rows)) && SideMet(r.newStart, r.newCount, CountNew(rows))
  }

  // The line cannot be a row of a hunk.
  predicate EndsRows(line: Line) {
    DIFF_GIT <= Header(line) || AT <= Header(line)
  }

  predicate BackslashLine(line: Line) {
    [BACKSLASH] <= line.bytes
  }

  // Lines [a, b) are rows: line k joined a hunk with the rows of [a, k), of which only a
  // backslash line may follow both announced counts.
  predicate Joined(all: seq<Line>, a: nat, k: nat, header: seq<Byte>, rows: seq<Row>)
    requires a <= k < |all|
  {
    && !EndsRows(all[k])
    && |Kept(all[a..k])| <= |rows|
    && (BackslashLine(all[k]) || !RangesMet(header, rows[..|Kept(all[a..k])|]))
  }

  predicate Rows(all: seq<Line>, a: nat, b: nat, header: seq<Byte>, ranges: Ranges, rows: seq<Row>)
    requires a <= b <= |all|
  {
    && RowsAre(rows, Kept(all[a..b]))
    && Numbered(ranges, rows)
    && forall k :: a <= k < b ==> Joined(all, a, k, header, rows)
  }

  // Why the hunk took no more lines.
  predicate EndsAt(all: seq<Line>, b: nat, header: seq<Byte>, rows: seq<Row>)
    requires b <= |all|
  {
    || b == |all|
    || EndsRows(all[b])
    || (!BackslashLine(all[b]) && RangesMet(header, rows))
  }

  // The hunk is the lines [a, b), headed by line a - 1.
  predicate Stretch(all: seq<Line>, a: nat, b: nat, h: Hunk) {
    && 0 < a <= b <= |all|
    && HeadedBy(h.header, h.ranges, all[a - 1])
    && Rows(all, a, b, h.header, h.ranges, h.lines)
    && EndsAt(all, b, h.header, h.lines)
  }

  // The hunks are stretches between lines lo and hi, one after the other.
  ghost predicate HunksIn(all: seq<Line>, lo: nat, hi: nat, hunks: seq<Hunk>)
    decreases |hunks|
  {
    if hunks == [] then lo <= hi
    else
      var n := |hunks| - 1;
      exists a, b: nat :: lo < a && b <= hi && Stretch(all, a, b, hunks[n]) && HunksIn(all, lo, a - 1, hunks[..n])
  }

  // The rows of a text file add up to its counts, and its hunks follow one another.
  ghost predicate FileIn(all: seq<Line>, lo: nat, hi: nat, f: DiffFile) {
    && lo <= hi
    && (f.body.Text? ==>
          && f.additions == Additions(f.body.hunks)
          && f.deletions == Deletions(f.body.hunks)
          && HunksIn(all, lo, hi, f.body.hunks))
  }

  // So do the files.
  ghost predicate FilesIn(all: seq<Line>, hi: nat, files: seq<DiffFile>)
    decreases |files|
  {
    if files == [] then true
    else
      var n := |files| - 1;
      exists mid: nat :: FilesIn(all, mid, files[..n]) && FileIn(all, mid, hi, files[n])
  }

  // ---- the invariant of the line machine ----

  // The open hunk has taken the lines from a up to i.
  predicate OpenRows(all: seq<Line>, a: nat, i: nat, h: HunkBuilder) {
    && 0 < a <= i <= |all|
    && HeadedBy(h.header, h.ranges, all[a - 1])
    && Rows(all, a, i, h.header, h.ranges, h.lines)
    && Counters(h)
  }

  predicate Counters(h: HunkBuilder) {
    && h.oldLine == SatAdd(HunkHeader(h.header).oldStart, CountOld(h.lines))
    && h.newLine == SatAdd(HunkHeader(h.header).newStart, CountNew(h.lines))
    && h.additions == CountAdditions(h.lines)
    && h.deletions == CountDeletions(h.lines)
  }

  // The open hunk comes after the file's other hunks.
  ghost predicate OpenAfter(all: seq<Line>, lo: nat, i: nat, h: HunkBuilder, hunks: seq<Hunk>) {
    exists a: nat :: lo < a && OpenRows(all, a, i, h) && HunksIn(all, lo, a - 1, hunks)
  }

  // The open file began after line lo.
  ghost predicate CurrentIn(all: seq<Line>, lo: nat, i: nat, f: FileBuilder, hunk: Option<HunkBuilder>) {
    && f.additions == Additions(f.hunks)
    && f.deletions == Deletions(f.hunks)
    && if hunk.Some? then OpenAfter(all, lo, i, hunk.value, f.hunks) else HunksIn(all, lo, i, f.hunks)
  }

  function Pending(s: State): nat {
    if s.hunk.Some? then |s.hunk.value.lines| else 0
  }

  // Counts so far are bounded by the lines read, so they never saturate.
  predicate CountsBounded(i: nat, s: State) {
    s.current.Some? ==> s.current.value.additions + Pending(s) <= i && s.current.value.deletions + Pending(s) <= i
  }

  ghost predicate InvFrom(all: seq<Line>, lo: nat, i: nat, s: State) {
    && lo <= i <= |all|
    && FilesIn(all, lo, s.files)
    && (s.hunk.Some? ==> s.current.Some?)
    && (s.current.Some? ==> CurrentIn(all, lo, i, s.current.value, s.hunk))
    && CountsBounded(i, s)
  }

  ghost predicate RowsInv(all: seq<Line>, i: nat, s: State) {
    exists lo: nat :: InvFrom(all, lo, i, s)
  }

  predicate FitsPatch(raw: seq<Byte>, all: seq<Line>) {
    |all| <= |raw| && AllInPatch(raw, all)
  }

  // ---- one row ----

  lemma {:induction false} PushIsRow(h: HunkBuilder, raw: seq<Byte>, line: Line)
    requires InPatch(raw, line) && |raw| <= ISIZE_MAX
    ensures var t := PushRow(h, raw, line);
            && t.header == h.header && t.ranges == h.ranges
            && (Marker(line) ==> t == h)
            && (!Marker(line) ==> |t.lines| == |h.lines| + 1 && t.lines[..|h.lines|] == h.lines && RowIs(t.lines[|h.lines|], line))
  {
    hide SpanWithin, TextBytes, ExactText, Clamp;
    assert NO_NEWLINE[0] == BACKSLASH;
    var b := line.bytes;
    SpanIsExact(raw, line.start, |b|, U32_MAX);
    if b != [] {
      assert raw[line.start + 1..line.start + |b|] == b[1..];
      SpanIsExact(raw, line.start + 1, |b| - 1, U32_MAX);
    }
  }

  // The new row's numbers, and what the row does to the counters.
  lemma {:induction false} PushNumbers(h: HunkBuilder, raw: seq<Byte>, line: Line)
    requires Counters(h) && |h.lines| < ISIZE_MAX && !Marker(line)
    requires h.ranges.oldStart == Clamp(HunkHeader(h.header).oldStart) && h.ranges.newStart == Clamp(HunkHeader(h.header).newStart)
    ensures var t := PushRow(h, raw, line);
            && Counters(t) && |t.lines| == |h.lines| + 1
            && (OldSide(t.lines[|h.lines|]) ==> t.lines[|h.lines|].oldLine == Clamp(h.ranges.oldStart + CountOld(h.lines)))
            && (NewSide(t.lines[|h.lines|]) ==> t.lines[|h.lines|].newLine == Clamp(h.ranges.newStart + CountNew(h.lines)))
  {
    hide SpanWithin, HunkHeader;
    var t := PushRow(h, raw, line);
    assert t.lines[..|h.lines|] == h.lines;
  }

  // The parser calls a hunk complete exactly when both counts are met.
  lemma {:induction false} CompleteIsMet(h: HunkBuilder)
    requires Counters(h)
    requires h.ranges == Ranges(Clamp(HunkHeader(h.header).oldStart), HunkHeader(h.header).oldCount,
                                Clamp(HunkHeader(h.header).newStart), HunkHeader(h.header).newCount)
    ensures Complete(h) <==> RangesMet(h.header, h.lines)
  {
    hide HunkHeader;
  }

  lemma {:induction false} KeptSnoc(all: seq<Line>, a: nat, i: nat)
    requires a <= i < |all|
    ensures Kept(all[a..i + 1]) == Kept(all[a..i]) + if Marker(all[i]) then [] else [all[i]]
  {
    assert all[a..i + 1][..i - a] == all[a..i];
  }

  lemma {:induction false} NumberedSnoc(ranges: Ranges, rows: seq<Row>, row: Row)
    requires Numbered(ranges, rows)
    requires OldSide(row) ==> row.oldLine == Clamp(ranges.oldStart + CountOld(rows))
    requires NewSide(row) ==> row.newLine == Clamp(ranges.newStart + CountNew(rows))
    ensures Numbered(ranges, rows + [row])
  {
    hide Clamp, CountOld, CountNew;
    var more := rows + [row];
    forall k | 0 <= k < |more|
      ensures (OldSide(more[k]) ==> more[k].oldLine == Clamp(ranges.oldStart + CountOld(more[..k])))
           && (NewSide(more[k]) ==> more[k].newLine == Clamp(ranges.newStart + CountNew(more[..k])))
    {
      assert more[..k] == rows[..k];
      if k == |rows| { assert rows[..k] == rows; }
    }
  }

  lemma {:induction false} JoinedLater(all: seq<Line>, a: nat, i: nat, header: seq<Byte>, rows: seq<Row>, more: seq<Row>)
    requires a <= i < |all| && rows <= more
    requires forall k :: a <= k < i ==> Joined(all, a, k, header, rows)
    requires |Kept(all[a..i])| == |rows| && !EndsRows(all[i]) && (BackslashLine(all[i]) || !RangesMet(header, rows))
    ensures forall k :: a <= k < i + 1 ==> Joined(all, a, k, header, more)
  {
    hide EndsRows, BackslashLine, RangesMet, Kept;
    forall k | a <= k < i + 1 ensures Joined(all, a, k, header, more) {
      var n := |Kept(all[a..k])|;
      if k < i {
        assert Joined(all, a, k, header, rows);
        assert more[..n] == rows[..n];
      } else {
        assert more[..n] == rows;
      }
    }
  }

  // One more row of an open hunk.
  lemma {:induction false} OpenPush(all: seq<Line>, a: nat, i: nat, h: HunkBuilder, raw: seq<Byte>)
    requires OpenRows(all, a, i, h) && i < |all| && FitsPatch(raw, all)
    requires !EndsRows(all[i]) && (BackslashLine(all[i]) || !Complete(h))
    ensures OpenRows(all, a, i + 1, PushRow(h, raw, all[i])) && |PushRow(h, raw, all[i]).lines| <= |h.lines| + 1
  {
    hide Complete, PushRow, Kept, RangesMet, EndsRows, BackslashLine, Counters, Numbered, RowIs, HunkHeader, Joined;
    var t := PushRow(h, raw, all[i]);
    assert |h.lines| < ISIZE_MAX by { KeptShort(all[a..i]); }
    HeaderClamps(h.header, h.ranges, all[a - 1]);
    CompleteIsMet(h);
    PushIsRow(h, raw, all[i]);
    KeptSnoc(all, a, i);
    JoinedLater(all, a, i, h.header, h.lines, t.lines);
    if Marker(all[i]) {
      assert Kept(all[a..i + 1]) == Kept(all[a..i]);
    } else {
      PushNumbers(h, raw, all[i]);
      var row := t.lines[|h.lines|];
      assert t.lines == h.lines + [row];
      NumberedSnoc(h.ranges, h.lines, row);
      assert RowsAre(t.lines, Kept(all[a..i]) + [all[i]]);
    }
  }

  lemma {:induction false} KeptShort(lines: seq<Line>)
    ensures |Kept(lines)| <= |lines|
  {
  }

  lemma {:induction false} HeaderClamps(header: seq<Byte>, ranges: Ranges, line: Line)
    requires HeadedBy(header, ranges, line)
    ensures ranges.oldStart == Clamp(HunkHeader(header).oldStart) && ranges.newStart == Clamp(HunkHeader(header).newStart)
  {
  }

  // ---- opening and closing ----

  lemma {:induction false} OpenStart(all: seq<Line>, i: nat)
    requires i < |all| && AT <= Header(all[i])
    ensures OpenRows(all, i + 1, i + 1, StartHunk(Lossy(Header(all[i]))))
  {
    hide Lossy, Header;
    assert all[i + 1..i + 1] == [];
    StartCounters(Lossy(Header(all[i])));
    hide HunkHeader, Clamp, Counters;
  }

  lemma {:induction false} StartCounters(header: seq<Byte>)
    ensures Counters(StartHunk(header)) && StartHunk(header).header == header && StartHunk(header).lines == []
  {
  }

  // An open hunk that ends here is a stretch.
  lemma {:induction false} OpenCloses(all: seq<Line>, a: nat, i: nat, h: HunkBuilder)
    requires OpenRows(all, a, i, h) && |all| <= ISIZE_MAX
    requires i == |all| || EndsRows(all[i]) || (!BackslashLine(all[i]) && Complete(h))
    ensures Stretch(all, a, i, FinishHunkBuilder(h)) && h.additions <= |h.lines| && h.deletions <= |h.lines|
    ensures h.additions == CountAdditions(h.lines) && h.deletions == CountDeletions(h.lines)
  {
    hide Rows, Complete, RangesMet, EndsRows, BackslashLine;
    HeaderClamps(h.header, h.ranges, all[a - 1]);
    CompleteIsMet(h);
  }

  // ---- every step keeps the invariant ----

  lemma {:induction false} SumsSnoc(hunks: seq<Hunk>, h: Hunk)
    ensures Additions(hunks + [h]) == Additions(hunks) + CountAdditions(h.lines)
    ensures Deletions(hunks + [h]) == Deletions(hunks) + CountDeletions(h.lines)
  {
    assert (hunks + [h])[..|hunks|] == hunks;
  }

  lemma {:induction false} HunksLater(all: seq<Line>, lo: nat, i: nat, j: nat, hunks: seq<Hunk>)
    requires HunksIn(all, lo, i, hunks) && i <= j
    ensures HunksIn(all, lo, j, hunks)
  {
    hide Stretch;
  }

  // `finish_hunk`, where the open hunk may end.
  lemma {:induction false} FinishHunkKeeps(all: seq<Line>, i: nat, s: State)
    requires RowsInv(all, i, s) && |all| <= ISIZE_MAX
    requires s.hunk.Some? ==> i == |all| || EndsRows(all[i]) || (!BackslashLine(all[i]) && Complete(s.hunk.value))
    ensures RowsInv(all, i, FinishHunk(s)) && FinishHunk(s).hunk.None?
  {
    hide EndsRows, BackslashLine, Complete, Stretch, OpenRows, FilesIn, Additions, Deletions, HunksIn;
    var lo: nat :| InvFrom(all, lo, i, s);
    if s.hunk.Some? {
      var f, h := s.current.value, s.hunk.value;
      var a: nat :| lo < a && OpenRows(all, a, i, h) && HunksIn(all, lo, a - 1, f.hunks);
      OpenCloses(all, a, i, h);
      SumsSnoc(f.hunks, FinishHunkBuilder(h));
      HunksSnoc(all, lo, a, i, f.hunks, FinishHunkBuilder(h));
    }
    assert InvFrom(all, lo, i, FinishHunk(s));
  }

  lemma {:induction false} HunksSnoc(all: seq<Line>, lo: nat, a: nat, b: nat, hunks: seq<Hunk>, h: Hunk)
    requires lo < a && HunksIn(all, lo, a - 1, hunks) && Stretch(all, a, b, h)
    ensures HunksIn(all, lo, b, hunks + [h])
  {
    hide Stretch;
    var more := hunks + [h];
    assert more[..|hunks|] == hunks && more[|hunks|] == h;
  }

  // `finish_file`
  lemma {:induction false} FinishFileKeeps(all: seq<Line>, i: nat, s: State)
    requires RowsInv(all, i, s) && s.hunk.None?
    ensures RowsInv(all, i, FinishFile(s)) && FinishFile(s).hunk.None? && FinishFile(s).current.None?
  {
    hide HunksIn, Additions, Deletions;
    var lo: nat :| InvFrom(all, lo, i, s);
    if s.current.Some? {
      var f := FinishFileBuilder(s.current.value);
      assert FileIn(all, lo, i, f);
      FilesSnoc(all, lo, i, s.files, f);
      assert InvFrom(all, i, i, FinishFile(s)) by { hide FilesIn; }
    } else {
      assert InvFrom(all, lo, i, FinishFile(s));
    }
  }

  lemma {:induction false} FilesSnoc(all: seq<Line>, mid: nat, hi: nat, files: seq<DiffFile>, f: DiffFile)
    requires FilesIn(all, mid, files) && FileIn(all, mid, hi, f)
    ensures FilesIn(all, hi, files + [f])
  {
    hide FileIn;
    var more := files + [f];
    assert more[..|files|] == files && more[|files|] == f;
  }

  lemma {:induction false} InvLater(all: seq<Line>, i: nat, j: nat, s: State)
    requires RowsInv(all, i, s) && s.hunk.None? && i <= j <= |all|
    ensures RowsInv(all, j, s)
  {
    hide FilesIn, HunksIn, Additions, Deletions;
    var lo: nat :| InvFrom(all, lo, i, s);
    if s.current.Some? { HunksLater(all, lo, i, j, s.current.value.hunks); }
    assert InvFrom(all, lo, j, s);
  }

  // Header lines and new files leave hunks and counts alone.
  lemma {:induction false} NewFileKeeps(all: seq<Line>, i: nat, s: State, f: FileBuilder)
    requires RowsInv(all, i, s) && s.hunk.None? && s.current.None? && f.hunks == [] && f.additions == 0 && f.deletions == 0
    ensures RowsInv(all, i, s.(current := Some(f)))
  {
    hide FilesIn;
    var lo: nat :| InvFrom(all, lo, i, s);
    assert InvFrom(all, lo, i, s.(current := Some(f)));
  }

  lemma {:induction false} HeaderLineKeeps(all: seq<Line>, i: nat, s: State, line: seq<Byte>)
    requires RowsInv(all, i, s) && s.hunk.None? && s.current.Some?
    ensures RowsInv(all, i, s.(current := Some(ApplyHeader(s.current.value, line))))
  {
    ApplyHeaderKeeps(s.current.value, line);
    hide ApplyHeader, FilesIn, HunksIn;
    var lo: nat :| InvFrom(all, lo, i, s);
    assert InvFrom(all, lo, i, s.(current := Some(ApplyHeader(s.current.value, line))));
  }

  lemma {:induction false} SettleKeeps(all: seq<Line>, i: nat, s: State)
    requires RowsInv(all, i, s) && i < |all| <= ISIZE_MAX
    ensures RowsInv(all, i, Settle(s, all[i]))
    ensures Settle(s, all[i]).hunk.Some? ==> BackslashLine(all[i]) || !Complete(Settle(s, all[i]).hunk.value)
  {
    hide RowsInv, EndsRows, Complete, FinishHunk;
    if s.hunk.Some? && Complete(s.hunk.value) && !BackslashLine(all[i]) { FinishHunkKeeps(all, i, s); }
  }

  lemma {:induction false} RowKeeps(all: seq<Line>, i: nat, s: State, raw: seq<Byte>, rows: nat)
    requires RowsInv(all, i, s) && i < |all| && FitsPatch(raw, all) && s.hunk.Some?
    requires !EndsRows(all[i]) && (BackslashLine(all[i]) || !Complete(s.hunk.value))
    ensures RowsInv(all, i + 1, s.(rows := rows, hunk := Some(PushRow(s.hunk.value, raw, all[i]))))
  {
    hide FilesIn, HunksIn, OpenRows, EndsRows, BackslashLine, Complete, PushRow, Additions, Deletions;
    var lo: nat :| InvFrom(all, lo, i, s);
    var h := s.hunk.value;
    var a: nat :| lo < a && OpenRows(all, a, i, h) && HunksIn(all, lo, a - 1, s.current.value.hunks);
    OpenPush(all, a, i, h, raw);
    var t := s.(rows := rows, hunk := Some(PushRow(h, raw, all[i])));
    assert OpenAfter(all, lo, i + 1, t.hunk.value, s.current.value.hunks);
    assert InvFrom(all, lo, i + 1, t);
  }

  lemma {:induction false} OpensKeeps(all: seq<Line>, i: nat, s: State, hunks: nat)
    requires RowsInv(all, i, s) && i < |all| && s.hunk.None? && s.current.Some? && AT <= Header(all[i])
    ensures RowsInv(all, i + 1, s.(hunks := hunks, hunk := Some(StartHunk(Lossy(Header(all[i]))))))
  {
    hide FilesIn, HunksIn, Lossy, Header, HunkHeader, StartHunk, Counters, OpenRows, Additions, Deletions;
    OpenStart(all, i);
    StartCounters(Lossy(Header(all[i])));
    var lo: nat :| InvFrom(all, lo, i, s);
    var t := s.(hunks := hunks, hunk := Some(StartHunk(Lossy(Header(all[i])))));
    assert OpenAfter(all, lo, i + 1, t.hunk.value, s.current.value.hunks);
    assert InvFrom(all, lo, i + 1, t);
  }

  lemma {:induction false} InFileKeeps(raw: seq<Byte>, all: seq<Line>, i: nat, s: State, limits: Limits)
    requires RowsInv(all, i, s) && i < |all| && FitsPatch(raw, all) && s.current.Some?
    requires !(DIFF_GIT <= Header(all[i]))
    requires s.hunk.Some? ==> BackslashLine(all[i]) || !Complete(s.hunk.value)
    ensures var n := StepInFile(raw, s, all[i], limits); n.Next? ==> n.consumed == 1 && RowsInv(all, i + 1, n.state)
  {
    hide RowsInv, FinishHunk, PushRow, StartHunk, ApplyHeader, Lossy, Header, Complete, FitsPatch, BackslashLine;
    BigEnough(raw, all);
    if AT <= Header(all[i]) {
      FinishHunkKeeps(all, i, s);
      HunkKeepsFile(s);
      OpensKeeps(all, i, FinishHunk(s), s.hunks + 1);
    } else if s.hunk.Some? {
      RowKeeps(all, i, s, raw, s.rows + 1);
    } else {
      HeaderLineKeeps(all, i, s, Lossy(Header(all[i])));
      InvLater(all, i, i + 1, s.(current := Some(ApplyHeader(s.current.value, Lossy(Header(all[i]))))));
    }
  }

  lemma {:induction false} BigEnough(raw: seq<Byte>, all: seq<Line>)
    requires FitsPatch(raw, all)
    ensures |all| <= ISIZE_MAX
  {
  }

  lemma {:induction false} HunkInFile(all: seq<Line>, i: nat, s: State)
    requires RowsInv(all, i, s)
    ensures s.hunk.Some? ==> s.current.Some?
  {
    hide FilesIn, CurrentIn;
  }

  lemma {:induction false} HunkKeepsFile(s: State)
    ensures FinishHunk(s).current.Some? == s.current.Some? && FinishHunk(s).hunk.None?
  {
  }

  lemma {:induction false} ClosedKeeps(all: seq<Line>, i: nat, s: State)
    requires RowsInv(all, i, s) && |all| <= ISIZE_MAX
    requires s.hunk.Some? ==> i == |all| || EndsRows(all[i])
    ensures RowsInv(all, i, Closed(s)) && Closed(s).hunk.None? && Closed(s).current.None?
  {
    hide RowsInv, EndsRows, Complete;
    FinishHunkKeeps(all, i, s);
    FinishFileKeeps(all, i, FinishHunk(s));
  }

  lemma {:induction false} StartsFileKeeps(all: seq<Line>, i: nat, j: nat, s: State, f: FileBuilder)
    requires RowsInv(all, i, s) && |all| <= ISIZE_MAX && i <= j <= |all|
    requires s.hunk.Some? ==> i == |all| || EndsRows(all[i])
    requires f.hunks == [] && f.additions == 0 && f.deletions == 0
    ensures RowsInv(all, j, Closed(s).(current := Some(f)))
  {
    hide RowsInv, EndsRows, Closed;
    ClosedKeeps(all, i, s);
    NewFileKeeps(all, i, Closed(s), f);
    InvLater(all, i, j, Closed(s).(current := Some(f)));
  }

  lemma {:induction false} StepKeepsRows(raw: seq<Byte>, all: seq<Line>, i: nat, s: State, limits: Limits)
    requires RowsInv(all, i, s) && i < |all| && FitsPatch(raw, all)
    ensures var n := Step(raw, s, all[i], Peek(all[i + 1..]), limits);
            n.Next? ==> i + n.consumed <= |all| && RowsInv(all, i + n.consumed, n.state)
  {
    hide RowsInv, Closed, Settle, StepInFile, UnifiedFile, DiffGitPaths, Lossy, Header, FitsPatch, Complete;
    BigEnough(raw, all);
    var header, next := Header(all[i]), Peek(all[i + 1..]);
    var n := Step(raw, s, all[i], next, limits);
    if n.Next? {
      StepConsumes(raw, s, all[i], next, limits);
      if DIFF_GIT <= header {
        StartsFileKeeps(all, i, i + 1, s, StartFile(DiffGitPaths(Lossy(header))));
      } else {
        SettleKeeps(all, i, s);
        var t := Settle(s, all[i]);
        if MINUS <= header && StartsUnified(t) && PLUS <= NextHeader(next) {
          UnifiedCounts(header, NextHeader(next));
          assert !(PLUS <= []) by { assert |PLUS| == 4; }
          StartsFileKeeps(all, i, i + 2, t, UnifiedFile(header, NextHeader(next)));
        } else if t.current.None? {
          HunkInFile(all, i, t);
          InvLater(all, i, i + 1, t);
        } else {
          InFileKeeps(raw, all, i, t, limits);
        }
      }
    }
  }

  lemma {:induction false} RunKeepsRows(raw: seq<Byte>, all: seq<Line>, i: nat, s: State, limits: Limits)
    requires RowsInv(all, i, s) && FitsPatch(raw, all)
    ensures var r := Run(raw, s, all[i..], limits); r.Ok? ==> RowsInv(all, |all|, r.value)
    decreases |all| - i
  {
    hide RowsInv, Step, FitsPatch;
    InvIndex(all, i, s);
    if i < |all| {
      assert all[i..][0] == all[i] && all[i..][1..] == all[i + 1..];
      StepKeepsRows(raw, all, i, s, limits);
      var n := Step(raw, s, all[i], Peek(all[i + 1..]), limits);
      if n.Next? {
        StepConsumes(raw, s, all[i], Peek(all[i + 1..]), limits);
        assert all[i..][n.consumed..] == all[i + n.consumed..];
        RunKeepsRows(raw, all, i + n.consumed, n.state, limits);
      }
    }
  }

  lemma {:induction false} InvIndex(all: seq<Line>, i: nat, s: State)
    requires RowsInv(all, i, s)
    ensures i <= |all|
  {
    hide FilesIn, CurrentIn;
  }

  // Whatever the limits, every text file of a parsed patch has as many additions and
  // deletions as its hunks have such rows, and the hunks of all files are stretches of
  // the patch's lines, one after the other: row for row, exact bytes, consecutive
  // numbers, and no row but a backslash line after both announced counts are met.  None
  // is missing: with the dropped hunks of binary files there are as many as `@@ ` lines
  // met with a file open, and with their rows and the markers as many rows as hunk lines.
  lemma {:induction false} ParsedHunksKeepRows(raw: seq<Byte>, lo: nat, hi: nat, limits: Limits)
    requires lo <= hi <= |raw| <= ISIZE_MAX
    ensures var r := ParseRange(raw, lo, hi, limits); r.Ok? ==> FilesIn(Lines(raw, lo, hi), |Lines(raw, lo, hi)|, r.value)
    ensures var r, lines := ParseRange(raw, lo, hi, limits), Lines(raw, lo, hi);
            var b, met := BuiltFiles(raw, START, lines, limits), MetIn(raw, START, lines, limits);
            r.Ok? ==>
              && r.value == Finished(b)
              && CountHunks(r.value) + HunksOf(Binaries(b)) == met.headers
              && CountRows(r.value) + RowsOf(Binaries(b)) + met.markers == met.lines
  {
    hide Lines, FileIn, InPatch, Run, ParsedLimits, FilesIn, RowsInv, BuiltFiles, MetIn, HunksOf, RowsOf, Binaries, CountHunks, CountRows, Finished;
    var all := Lines(raw, lo, hi);
    LinesInPatch(raw, lo, hi);
    StartKeeps(all);
    RunKeepsRows(raw, all, 0, START, limits);
    assert all[0..] == all;
    var r := Run(raw, START, all, limits);
    if r.Ok? {
      ClosedKeeps(all, |all|, r.value);
      FilesToEnd(all, |all|, Closed(r.value));
      ParsedCounts(raw, all, limits);
    }
    hide Closed;
  }

  lemma {:induction false} FilesToEnd(all: seq<Line>, i: nat, s: State)
    requires RowsInv(all, i, s)
    ensures FilesIn(all, i, s.files)
  {
    hide HunksIn, CurrentIn;
    var lo: nat :| InvFrom(all, lo, i, s);
    if s.files != [] {
      var n := |s.files| - 1;
      var mid: nat :| FilesIn(all, mid, s.files[..n]) && FileIn(all, mid, lo, s.files[n]);
      if s.files[n].body.Text? { HunksLater(all, mid, lo, i, s.files[n].body.hunks); }
      assert FileIn(all, mid, i, s.files[n]);
    }
  }

  lemma {:induction false} StartKeeps(all: seq<Line>)
    ensures RowsInv(all, 0, START)
  {
    assert InvFrom(all, 0, 0, START);
  }
}

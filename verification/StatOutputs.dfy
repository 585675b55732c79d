// The guard asks for no more than the outputs need: after any guarded patch, a line that
// breaks it and a few rows more make parser and stat counter list different files.
module StatOutputs {
  import opened Wrappers
  import opened Utf8
  import opened GitPaths
  import opened PatchModel
  import opened PatchPieces
  import opened PatchParser
  import opened HeaderLines
  import opened PatchStats
  import opened PatchMeaning
  import opened StatSimulation
  import HunkHeaders

  // ---- the link on views ----

  lemma {:induction false} ViewFilesAt(fs: seq<DiffFile>)
    ensures |ViewFiles(fs)| == |fs| && forall k :: 0 <= k < |fs| ==> ViewFiles(fs)[k] == ViewFile(fs[k])
    decreases |fs|
  {
    hide ViewFile;
    if fs != [] { ViewFilesAt(fs[..|fs| - 1]); }
  }

  lemma {:induction false} SameFilesView(fs: seq<DiffFile>, gs: seq<PatchFileStat>)
    ensures SameFiles(ViewFiles(fs), gs) <==> SameFiles(fs, gs)
  {
    ViewFilesAt(fs);
    hide ViewFiles, ViewHunks;
    assert forall f: DiffFile, g: PatchFileStat :: SameFile(ViewFile(f), g) <==> SameFile(f, g);
    hide ViewFile, SameFile;
    if SameFiles(ViewFiles(fs), gs) {
      forall k | 0 <= k < |fs| ensures SameFile(fs[k], gs[k]) { assert SameFile(ViewFiles(fs)[k], gs[k]); }
    }
  }

  lemma {:induction false} ViewFilesLinked(s: State, c: Count, i: nat)
    requires FilesLinked(s, c, i)
    ensures FilesLinked(View(s), c, i)
  {
    SameFilesView(s.files, c.files);
    if s.current.Some? { ViewHunksTwice(s.current.value.hunks); }
    hide SameFiles, ViewFiles, ViewHunks, ViewRows;
  }

  lemma {:induction false} ViewRowsLength(rows: seq<Row>)
    ensures |ViewRows(rows)| == |rows|
    decreases |rows|
  {
    hide ViewRow;
    if rows != [] { ViewRowsLength(rows[..|rows| - 1]); }
  }

  lemma {:induction false} ViewLinked(s: State, c: Count, i: nat)
    requires Linked(s, c, i)
    ensures Linked(View(s), c, i)
  {
    ViewFilesLinked(s, c, i);
    if s.hunk.Some? { ViewRowsLength(s.hunk.value.lines); }
    hide FilesLinked, ViewRows, ViewFiles, ViewHunks, HunkHeader, Far, Clamp, Roomy;
  }

  // ---- a guarded run over contents keeps the link ----

  lemma {:induction false} TrimTail(cs: seq<seq<Byte>>)
    requires cs != []
    ensures Trim(cs) != [] && Trim(cs)[0] == WithoutReturn(cs[0]) && Trim(cs)[1..] == Trim(cs[1..])
    ensures First(Trim(cs[1..])) == if cs[1..] == [] then [] else WithoutReturn(cs[1])
  {
    hide WithoutReturn;
  }

  lemma {:induction false} ContentsStep(v: State, c: Count, i: nat, x: seq<Byte>, next: Option<seq<Byte>>)
    requires Linked(v, c, i) && i < ISIZE_MAX && Guard(c, WithoutReturn(x), if next.Some? then WithoutReturn(next.value) else [])
    ensures var n := StepContents(v, x, next);
            if n.1 == 1 then Linked(n.0, CountLine(c, WithoutReturn(x)), i + 1)
            else next.Some? && Linked(n.0, CountLine(CountLine(c, WithoutReturn(x)), WithoutReturn(next.value)), i + 2)
  {
    hide Step, Linked, View, CountLine, Guard, WithoutReturn;
    var after := if next.Some? then Some(Alone(next.value)) else None;
    NeverStops(x, v, Alone(x), after);
    StepConsumes(x, v, Alone(x), after, UNLIMITED);
    StepLinks(x, v, c, i, Alone(x), after, UNLIMITED);
    var n := Step(x, v, Alone(x), after, UNLIMITED);
    if n.consumed == 1 {
      ViewLinked(n.state, CountLine(c, WithoutReturn(x)), i + 1);
    } else {
      ViewLinked(n.state, CountLine(CountLine(c, WithoutReturn(x)), WithoutReturn(next.value)), i + 2);
    }
  }

  lemma {:induction false} ContentsLinked(v: State, c: Count, i: nat, cs: seq<seq<Byte>>)
    requires Linked(v, c, i) && i + |cs| <= ISIZE_MAX && Guarded(c, Trim(cs))
    ensures Linked(RunContents(v, cs), CountAll(c, Trim(cs)), i + |cs|)
    decreases |cs|
  {
    hide Linked, StepContents, CountLine, Guard, WithoutReturn;
    if cs != [] {
      TrimTail(cs);
      ContentsStep(v, c, i, cs[0], Head(cs[1..]));
      var n := StepContents(v, cs[0], Head(cs[1..]));
      if n.1 == 1 {
        ContentsLinked(n.0, CountLine(c, WithoutReturn(cs[0])), i + 1, cs[1..]);
      } else {
        TrimTail(cs[1..]);
        assert cs[1..][1..] == cs[2..];
        ContentsLinked(n.0, CountLine(CountLine(c, WithoutReturn(cs[0])), WithoutReturn(cs[1])), i + 2, cs[2..]);
      }
    }
  }

  // ---- lines after which the outputs differ ----

  // The additions of the last file differ by one.
  predicate AdditionApart(fs: seq<DiffFile>, gs: seq<PatchFileStat>) {
    && |fs| == |gs| > 0
    && var f, g := fs[|fs| - 1].additions, gs[|fs| - 1].additions; f == g + 1 || g == f + 1
  }

  // Ending the patch after these lines, parser and counter differ in an addition.
  predicate CountApart(v: State, c: Count, cs: seq<seq<Byte>>) {
    AdditionApart(Closed(RunContents(v, cs)).files, FinishCount(CountAll(c, Trim(cs))).files)
  }

  // How the two differ after a line that breaks the guard.
  predicate Differ(header: seq<Byte>, fs: seq<DiffFile>, gs: seq<PatchFileStat>) {
    if AT <= header then AdditionApart(fs, gs)
    else if DIFF_GIT <= header then |fs| == |gs| + 1
    else |gs| == |fs| + 1
  }

  lemma {:induction false} DifferIsNotSame(header: seq<Byte>, fs: seq<DiffFile>, gs: seq<PatchFileStat>)
    requires Differ(header, fs, gs)
    ensures !SameFiles(fs, gs)
  {
    if |fs| == |gs| { assert !SameFile(fs[|fs| - 1], gs[|fs| - 1]); }
  }

  lemma {:induction false} DifferView(header: seq<Byte>, fs: seq<DiffFile>, gs: seq<PatchFileStat>)
    ensures Differ(header, ViewFiles(fs), gs) == Differ(header, fs, gs)
  {
    ViewFilesAt(fs);
    hide ViewFiles, ViewHunks;
  }

  lemma {:induction false} OneMore(v: State, c: Count, x: seq<Byte>)
    ensures RunContents(v, [x]) == StepContents(v, x, None).0
    ensures CountAll(c, Trim([x])) == CountLine(c, WithoutReturn(x))
  {
    hide StepContents, CountLine, WithoutReturn;
    assert [x][1..] == [];
    assert Trim([x]) == [WithoutReturn(x)];
    assert [WithoutReturn(x)][1..] == [];
  }

  lemma {:induction false} ApartAfter(v: State, c: Count, x: seq<Byte>, rest: seq<seq<Byte>>)
    requires StepContents(v, x, Head(rest)).1 == 1
    requires CountApart(StepContents(v, x, Head(rest)).0, CountLine(c, WithoutReturn(x)), rest)
    ensures CountApart(v, c, [x] + rest)
  {
    hide StepContents, CountLine, WithoutReturn, AdditionApart, Closed, FinishCount;
    var cs := [x] + rest;
    assert cs[1..] == rest;
    assert Trim(cs)[1..] == Trim(rest);
  }

  // How many files each lists when it ends here.
  lemma {:induction false} FileCounts(s: State, c: Count)
    ensures |Closed(s).files| == |s.files| + (if s.current.Some? then 1 else 0)
    ensures |FinishCount(c).files| == |c.files| + (if c.current.Some? then 1 else 0)
  {
  }

  // A `diff --git ` row of an open hunk: the parser lists one file more.
  lemma {:induction false} FileRowShows(v: State, c: Count, i: nat, x: seq<Byte>)
    requires Linked(v, c, i) && View(v) == v && c.hunk.Some? && DIFF_GIT <= WithoutReturn(x)
    ensures |Closed(RunContents(v, [x])).files| == |FinishCount(CountAll(c, Trim([x]))).files| + 1
  {
    hide Linked, StepContents, WithoutReturn, Closed, FinishCount, SameFile, View, CountRow, CountHeader;
    OneMore(v, c, x);
    LinkedCounts(v, c, i);
    StepStarts(v, x, None);
    FileCounts(v, c);
    FileCounts(Begun(Closed(v).files), CountLine(c, WithoutReturn(x)));
  }

  lemma {:induction false} LinkedCounts(s: State, c: Count, i: nat)
    requires Linked(s, c, i)
    ensures |s.files| == |c.files| && (s.current.Some? <==> c.current.Some?) && (c.hunk.Some? ==> c.current.Some?)
  {
    hide SameFile, NearLinked, FarLinked;
  }

  // A lone `--- ` line where a file could start: the counter lists one file more.
  lemma {:induction false} MinusShows(v: State, c: Count, i: nat, x: seq<Byte>)
    requires Linked(v, c, i) && i <= ISIZE_MAX && c.hunk.None? && MINUS <= WithoutReturn(x) && (c.current.None? || c.current.value.seenHunk)
    ensures |FinishCount(CountAll(c, Trim([x]))).files| == |Closed(RunContents(v, [x])).files| + 1
  {
    hide Linked, StepContents, CountLine, WithoutReturn, Closed, FinishCount, SameFile, ApplyCount, Lossy;
    OneMore(v, c, x);
    LinkedCounts(v, c, i);
    CountsMinus(c, WithoutReturn(x));
    MinusStep(v, c, i, x);
    FileCounts(v, c);
    FileCounts(StepContents(v, x, None).0, CountLine(c, WithoutReturn(x)));
    if c.current.Some? { FileCounts(v, FinishCount(c)); }
    assert FinishCount(c).current.None? by { FinishCloses(c); }
  }

  lemma {:induction false} FinishCloses(c: Count)
    ensures FinishCount(c).current.None?
  {
  }

  lemma {:induction false} MinusStep(v: State, c: Count, i: nat, x: seq<Byte>)
    requires Linked(v, c, i) && i <= ISIZE_MAX && c.hunk.None? && MINUS <= WithoutReturn(x)
    ensures var n := StepContents(v, x, None).0; |n.files| == |v.files| && (n.current.Some? <==> v.current.Some?)
  {
    hide Linked, WithoutReturn, ApplyHeader, Lossy, Complete, FinishHunk, ViewFiles, ViewBuilder, ViewOpen;
    var line := Alone(x);
    OneKind(WithoutReturn(x));
    SettleLinked(v, c, i, line);
    LinkFacts(Settle(v, line), c, i);
    if [BACKSLASH] <= x { BackslashIsNoHeader(line); }
    assert !(PLUS <= []) by { assert |PLUS| == 4; }
    SettleFiles(v, line);
    var n := Step(x, v, line, None, UNLIMITED);
    assert n.Next? && n.state.files == v.files && (n.state.current.Some? <==> v.current.Some?);
    ViewFilesTwice(v.files);
  }

  lemma {:induction false} SettleFiles(s: State, line: Line)
    ensures Settle(s, line).files == s.files && (Settle(s, line).current.Some? <==> s.current.Some?)
  {
  }

  // ---- rows that tell the two apart ----

  predicate ChangeRow(b: seq<Byte>) {
    b == [43] || b == [45]
  }

  lemma {:induction false} ChangeIsNoHeader(b: seq<Byte>)
    requires ChangeRow(b)
    ensures WithoutReturn(b) == b && !(DIFF_GIT <= b) && !(MINUS <= b) && !(PLUS <= b) && !(AT <= b) && !([BACKSLASH] <= b)
    ensures !BinaryMarker(Lossy(b))
  {
    assert |DIFF_GIT| == 11 && |MINUS| == 4 && |PLUS| == 4 && |AT| == 3;
    LossyPrefix(BINARY_FILES, b);
    LossyHead(b);
    assert |BINARY_FILES| == 13 && |BINARY_PATCH| == 16;
    assert Lossy([]) == [];
  }

  predicate CountersFit(h: HunkBuilder) {
    h.oldLine <= USIZE_MAX && h.newLine <= USIZE_MAX
  }

  // A row in the parser.
  lemma {:induction false} RowStep(v: State, b: seq<Byte>, next: Option<seq<Byte>>)
    requires ChangeRow(b) && v.current.Some? && v.hunk.Some? && !Complete(v.hunk.value)
    ensures StepContents(v, b, next) == (View(v.(rows := v.rows + 1, hunk := Some(PushRow(v.hunk.value, b, Alone(b))))), 1)
  {
    ChangeIsNoHeader(b);
    hide WithoutReturn, View, PushRow, Complete, Lossy;
  }

  // ... and in both.
  lemma {:induction false} RaceStep(v: State, c: Count, i: nat, b: seq<Byte>, next: Option<seq<Byte>>)
    requires ChangeRow(b) && FilesLinked(v, c, i) && i < ISIZE_MAX && v.hunk.Some? && c.hunk.Some?
    requires CountersFit(v.hunk.value) && !Complete(v.hunk.value)
    ensures var n, d := StepContents(v, b, next), CountLine(c, b);
            && n.1 == 1 && n.0.hunk.Some? && FilesLinked(n.0, d, i + 1) && d.hunk == StillOpen(CountRow(c.hunk.value, b))
            && var g, h := n.0.hunk.value, v.hunk.value;
               && g.ranges == h.ranges
               && g.oldLine == SatAdd(h.oldLine, if b == [43] then 0 else 1)
               && g.newLine == SatAdd(h.newLine, if b == [43] then 1 else 0)
  {
    ChangeIsNoHeader(b);
    var t := v.(rows := v.rows + 1, hunk := Some(PushRow(v.hunk.value, b, Alone(b))));
    RowFiles(b, v, c, i, Alone(b), v.rows + 1);
    CountsRow(c, b);
    RowCounts(v, c, i);
    RowTells(v.hunk.value, b, Alone(b));
    ViewFilesLinked(t, CountLine(c, b), i + 1);
    hide FilesLinked, WithoutReturn, PushRow, CountLine, CountRow, Complete, StepContents, ViewFiles, ViewBuilder, ViewRows;
    assert v.current.Some? by { HasCurrent(v, c, i); }
    RowStep(v, b, next);
  }

  lemma {:induction false} HasCurrent(v: State, c: Count, i: nat)
    requires FilesLinked(v, c, i) && v.hunk.Some?
    ensures v.current.Some? && c.current.Some?
  {
    hide SameFiles;
  }

  lemma {:induction false} RowCounts(v: State, c: Count, i: nat)
    requires FilesLinked(v, c, i) && v.hunk.Some? && i <= ISIZE_MAX
    ensures v.hunk.value.additions <= ISIZE_MAX && v.hunk.value.deletions <= ISIZE_MAX
  {
    hide SameFiles;
  }

  // ---- an addition that only one of them counts ----

  lemma {:induction false} OffByOne(fs: seq<DiffFile>, c: Count, d: Count)
    requires SameFiles(fs, FinishCount(c).files) && c.files == d.files && c.current.Some? && d.current.Some?
    requires var a, b := c.current.value.additions, d.current.value.additions; a == b + 1 || b == a + 1
    ensures AdditionApart(fs, FinishCount(d).files)
  {
    var n := |c.files|;
    assert FinishCount(c).files[n].additions == c.current.value.additions && FinishCount(d).files[n].additions == d.current.value.additions;
    assert SameFile(fs[n], FinishCount(c).files[n]);
  }

  // The parser's hunk is complete, the counter's is not.
  lemma {:induction false} CounterCounts(v: State, c: Count, i: nat)
    requires FilesLinked(v, c, i) && i < ISIZE_MAX && v.hunk.Some? && Complete(v.hunk.value) && c.hunk.Some?
    ensures CountApart(v, c, [[43]])
  {
    OneMore(v, c, [43]);
    ChangeIsNoHeader([43]);
    CountsRow(c, [43]) by { HasCurrent(v, c, i); }
    CompleteStep(v, c, i);
    hide FilesLinked, StepContents, CountLine, WithoutReturn, Closed, FinishCount, SameFiles, Complete, CountRow;
    var n := StepContents(v, [43], None).0;
    ClosedLinked(n, c, i);
    assert c.current.Some? by { HasCurrent(v, c, i); }
    OffByOne(Closed(n).files, c, CountLine(c, [43]));
  }

  lemma {:induction false} CompleteStep(v: State, c: Count, i: nat)
    requires FilesLinked(v, c, i) && i <= ISIZE_MAX && v.hunk.Some? && Complete(v.hunk.value)
    ensures FilesLinked(StepContents(v, [43], None).0, c, i)
  {
    ChangeIsNoHeader([43]);
    HasCurrent(v, c, i);
    FinishHunkLinked(v, c, i);
    var t := FinishHunk(v);
    var u := t.(current := Some(ApplyHeader(t.current.value, Lossy([43]))));
    ApplyHeaderKeeps(t.current.value, Lossy([43]));
    HeaderFiles(t, c, i, ApplyHeader(t.current.value, Lossy([43])));
    ViewFilesLinked(u, c, i);
    hide FilesLinked, WithoutReturn, FinishHunk, ApplyHeader, Lossy, Complete, View, BinaryMarker;
    assert !(PLUS <= []) by { assert |PLUS| == 4; }
    assert Step([43], v, Alone([43]), None, UNLIMITED) == Next(u, 1);
  }

  // A header line that says nothing of counts or binary contents.
  lemma {:induction false} HeaderFiles(s: State, c: Count, i: nat, g: FileBuilder)
    requires FilesLinked(s, c, i) && s.current.Some?
    requires var f := s.current.value; g.additions == f.additions && g.deletions == f.deletions && g.hunks == f.hunks && g.binary == f.binary
    ensures FilesLinked(s.(current := Some(g)), c, i)
  {
    hide SameFiles;
  }

  // The counter's hunk is used up, the parser's is not complete.
  lemma {:induction false} ParserCounts(v: State, c: Count, i: nat)
    requires FilesLinked(v, c, i) && i < ISIZE_MAX && v.hunk.Some? && CountersFit(v.hunk.value) && !Complete(v.hunk.value) && c.hunk.None?
    ensures CountApart(v, c, [[43]])
  {
    HasCurrent(v, c, i);
    OneMore(v, c, [43]);
    ChangeIsNoHeader([43]);
    RowStep(v, [43], None);
    CountsHeader(c, [43]);
    ApplyCountKeeps(c.current.value, Lossy([43]));
    var f := c.current.value;
    var d := c.(current := Some(f.(additions := f.additions + 1)));
    AdditionFiles(v, c, i);
    hide FilesLinked, StepContents, CountLine, WithoutReturn, Closed, FinishCount, SameFiles, Complete, ApplyCount, Lossy, PushRow, View, BinaryMarker;
    var n := StepContents(v, [43], None).0;
    ClosedLinked(n, d, i + 1);
    OffByOne(Closed(n).files, d, CountLine(c, [43]));
  }

  lemma {:induction false} AdditionFiles(v: State, c: Count, i: nat)
    requires FilesLinked(v, c, i) && i < ISIZE_MAX && v.hunk.Some? && CountersFit(v.hunk.value) && c.current.Some?
    ensures var f := c.current.value;
            FilesLinked(View(v.(rows := v.rows + 1, hunk := Some(PushRow(v.hunk.value, [43], Alone([43]))))),
                        c.(current := Some(f.(additions := f.additions + 1))), i + 1)
  {
    var t := v.(rows := v.rows + 1, hunk := Some(PushRow(v.hunk.value, [43], Alone([43]))));
    var d := c.(current := Some(c.current.value.(additions := c.current.value.additions + 1)));
    RowCounts(v, c, i);
    RowTells(v.hunk.value, [43], Alone([43]));
    assert FilesLinked(t, d, i + 1) by { hide PushRow, SameFiles, View; }
    hide FilesLinked, PushRow, View;
    ViewFilesLinked(t, d, i + 1);
  }

  // ---- rows until only one hunk is open ----

  // The next row: the one that leaves the two further apart or as far.
  function RaceRow(o: HunkCount, k: HunkCount): (b: seq<Byte>)
    ensures ChangeRow(b)
  {
    if o.oldRemaining != k.oldRemaining then (if o.newRemaining > 0 || k.newRemaining > 0 then [43] else [45])
    else if o.oldRemaining > 0 then [45] else [43]
  }

  // Rows for a parser that waits for `o` and a counter that waits for `k`.
  function Race(o: HunkCount, k: HunkCount): seq<seq<Byte>>
    decreases o.oldRemaining + o.newRemaining + k.oldRemaining + k.newRemaining
  {
    if Used(o) || Used(k) then [[43]]
    else [RaceRow(o, k)] + Race(CountRow(o, RaceRow(o, k)), CountRow(k, RaceRow(o, k)))
  }

  predicate Racing(v: State, c: Count, i: nat, o: HunkCount) {
    && FilesLinked(v, c, i) && v.hunk.Some? && Remaining(v.hunk.value) == o
    && Roomy(v.hunk.value.ranges.oldStart, v.hunk.value.ranges.oldCount, v.hunk.value.oldLine)
    && Roomy(v.hunk.value.ranges.newStart, v.hunk.value.ranges.newCount, v.hunk.value.newLine)
  }

  lemma {:induction false} RaceOn(v: State, c: Count, i: nat, o: HunkCount, b: seq<Byte>, next: Option<seq<Byte>>)
    requires Racing(v, c, i, o) && ChangeRow(b) && i < ISIZE_MAX && c.hunk.Some? && !Used(o)
    ensures var n, d := StepContents(v, b, next), CountLine(c, b);
            n.1 == 1 && Racing(n.0, d, i + 1, CountRow(o, b)) && d.hunk == StillOpen(CountRow(c.hunk.value, b))
  {
    CompleteIsUsed(v.hunk.value);
    RaceStep(v, c, i, b, next);
    hide FilesLinked, StepContents, CountLine, Complete;
  }

  lemma {:induction false} RaceShows(v: State, c: Count, i: nat, o: HunkCount, k: HunkCount)
    requires Racing(v, c, i, o) && c.hunk == StillOpen(k) && o != k && i + |Race(o, k)| <= ISIZE_MAX
    ensures CountApart(v, c, Race(o, k))
    decreases o.oldRemaining + o.newRemaining + k.oldRemaining + k.newRemaining
  {
    hide Racing, CountApart, StepContents, CountLine;
    RaceFacts(v, c, i, o);
    if Used(o) {
      CounterCounts(v, c, i);
    } else if Used(k) {
      ParserCounts(v, c, i);
    } else {
      var b := RaceRow(o, k);
      var rest := Race(CountRow(o, b), CountRow(k, b));
      RaceOn(v, c, i, o, b, Head(rest));
      RaceShows(StepContents(v, b, Head(rest)).0, CountLine(c, b), i + 1, CountRow(o, b), CountRow(k, b));
      assert WithoutReturn(b) == b by { ChangeIsNoHeader(b); }
      ApartAfter(v, c, b, rest);
    }
  }

  lemma {:induction false} RaceFacts(v: State, c: Count, i: nat, o: HunkCount)
    requires Racing(v, c, i, o)
    ensures FilesLinked(v, c, i) && v.hunk.Some? && CountersFit(v.hunk.value) && (Complete(v.hunk.value) <==> Used(o))
  {
    CompleteIsUsed(v.hunk.value);
    hide FilesLinked, Complete, Used;
  }

  // ---- rows until the counter's hunk is used up ----

  function DrainRow(k: HunkCount): (b: seq<Byte>)
    ensures ChangeRow(b)
  {
    if k.oldRemaining > 0 then [45] else [43]
  }

  // Rows for a counter that waits for `k` and a parser that waits for more.
  function Drain(k: HunkCount): seq<seq<Byte>>
    decreases k.oldRemaining + k.newRemaining
  {
    if Used(k) then [[43]] else [DrainRow(k)] + Drain(CountRow(k, DrainRow(k)))
  }

  // A side that is not at its end for another `n` rows.
  predicate StaysOpen(start: nat, count: nat, line: nat, n: nat) {
    start <= line <= USIZE_MAX && SatAdd(line, n) - start < count
  }

  predicate HunkStaysOpen(h: HunkBuilder, n: nat) {
    && CountersFit(h)
    && (StaysOpen(h.ranges.oldStart, h.ranges.oldCount, h.oldLine, n) || StaysOpen(h.ranges.newStart, h.ranges.newCount, h.newLine, n))
  }

  lemma {:induction false} DrainShows(v: State, c: Count, i: nat, k: HunkCount)
    requires FilesLinked(v, c, i) && v.hunk.Some? && HunkStaysOpen(v.hunk.value, |Drain(k)|) && c.hunk == StillOpen(k) && i + |Drain(k)| <= ISIZE_MAX
    ensures CountApart(v, c, Drain(k))
    decreases k.oldRemaining + k.newRemaining
  {
    hide FilesLinked, CountApart, StepContents, CountLine;
    assert !Complete(v.hunk.value);
    if Used(k) {
      ParserCounts(v, c, i);
    } else {
      var b := DrainRow(k);
      var rest := Drain(CountRow(k, b));
      RaceStep(v, c, i, b, Head(rest));
      DrainShows(StepContents(v, b, Head(rest)).0, CountLine(c, b), i + 1, CountRow(k, b));
      assert WithoutReturn(b) == b by { ChangeIsNoHeader(b); }
      ApartAfter(v, c, b, rest);
    }
  }

  // ---- a hunk header after which the two wait for different rows ----

  // Such a line in the parser.
  lemma {:induction false} OpenStep(v: State, x: seq<Byte>, next: Option<seq<Byte>>)
    requires AT <= WithoutReturn(x) && Settle(v, Alone(x)).current.Some?
    ensures var t := Settle(v, Alone(x));
            StepContents(v, x, next) == (View(FinishHunk(t).(hunks := t.hunks + 1, hunk := Some(StartHunk(Lossy(WithoutReturn(x)))))), 1)
  {
    OneKind(WithoutReturn(x));
    hide WithoutReturn, Settle, FinishHunk, StartHunk, Lossy, View;
  }

  // ... and in both.
  lemma {:induction false} HeaderBoth(v: State, c: Count, i: nat, x: seq<Byte>, next: Option<seq<Byte>>)
    requires Linked(v, c, i) && i <= ISIZE_MAX && c.current.Some? && AT <= WithoutReturn(x)
    ensures var n := StepContents(v, x, next);
            && n.1 == 1 && n.0.hunk == Some(StartHunk(Lossy(WithoutReturn(x))))
            && FilesLinked(n.0, CountLine(c, WithoutReturn(x)), i + 1)
  {
    hide Linked, FilesLinked, WithoutReturn, Settle, FinishHunk, StartHunk, Lossy, CountLine, ViewFiles, ViewBuilder, StepContents, ViewHunks;
    var line, header := Alone(x), WithoutReturn(x);
    SettleLinked(v, c, i, line);
    var t := Settle(v, line);
    LinkedCounts(t, c, i);
    OpenStep(v, x, next);
    OpenFiles(t, c, i, header, t.hunks + 1);
    StartsEmpty(Lossy(header));
    assert ViewRows([]) == [];
    ViewFilesLinked(FinishHunk(t).(hunks := t.hunks + 1, hunk := Some(StartHunk(Lossy(header)))), CountLine(c, header), i + 1);
  }

  function OrUsed(k: Option<HunkCount>): HunkCount {
    if k.Some? then k.value else HunkCount(0, 0)
  }

  // Lines to add after a line that breaks the guard.
  function RowsAfter(c: Count, header: seq<Byte>): seq<seq<Byte>> {
    if !(AT <= header) then []
    else
      var r, k := HunkHeader(Lossy(header)), OrUsed(CountLine(c, header).hunk);
      if TooLong(r) then Drain(k) else Race(RowsLeft(r), k)
  }

  // The counter holds a hunk that is used up only right after a header without rows.
  lemma {:induction false} UsedAtOnce(c: Count, header: seq<Byte>)
    requires c.current.Some? && AT <= header
    ensures var k, r := CountLine(c, header).hunk, HunkHeader(Lossy(header));
            k == StillOpen(OrUsed(k)) || (k.Some? && Used(k.value) && Used(RowsLeft(r)) && !TooLong(r))
  {
    hide HunkHeader, Lossy, CountRow, CountHeader;
    if c.hunk.None? { CountsOpen(c, header); }
  }

  lemma {:induction false} StartsRacing(header: seq<Byte>)
    requires !TooLong(HunkHeader(header))
    ensures var h := StartHunk(header);
            && Roomy(h.ranges.oldStart, h.ranges.oldCount, h.oldLine) && Roomy(h.ranges.newStart, h.ranges.newCount, h.newLine)
            && Remaining(h) == RowsLeft(HunkHeader(header))
  {
    hide HunkHeader;
  }

  lemma {:induction false} StartsFar(header: seq<Byte>, n: nat)
    requires TooLong(HunkHeader(header)) && n <= ISIZE_MAX
    ensures HunkStaysOpen(StartHunk(header), n)
  {
    hide HunkHeader;
  }

  lemma {:induction false} HeaderShows(v: State, c: Count, i: nat, x: seq<Byte>)
    requires Linked(v, c, i) && c.current.Some? && AT <= WithoutReturn(x) && !Guard(c, WithoutReturn(x), [])
    requires i + 1 + |RowsAfter(c, WithoutReturn(x))| <= ISIZE_MAX
    ensures CountApart(v, c, [x] + RowsAfter(c, WithoutReturn(x)))
  {
    hide Linked, Guard, HunkHeader, Lossy, CountLine, StartHunk, RowsLeft, TooLong, CountApart, StepContents, FilesLinked, WithoutReturn;
    hide Roomy, Remaining, HunkStaysOpen;
    var header := WithoutReturn(x);
    var rest := RowsAfter(c, header);
    var n, d, r := StepContents(v, x, Head(rest)).0, CountLine(c, header), HunkHeader(Lossy(header));
    HeaderBoth(v, c, i, x, Head(rest));
    GuardOpens(c, header);
    UsedAtOnce(c, header);
    var k := OrUsed(d.hunk);
    if TooLong(r) {
      StartsFar(Lossy(header), |rest|);
      DrainShows(n, d, i + 1, k);
    } else {
      StartsRacing(Lossy(header));
      if d.hunk == StillOpen(k) {
        RaceShows(n, d, i + 1, RowsLeft(r), k);
      } else {
        CompleteIsUsed(n.hunk.value);
        CounterCounts(n, d, i + 1);
      }
    }
    ApartAfter(v, c, x, rest);
  }

  // ---- after any guarded patch ----

  lemma {:induction false} BreakShows(v: State, c: Count, i: nat, x: seq<Byte>)
    requires Linked(v, c, i) && View(v) == v && !Guard(c, WithoutReturn(x), [])
    requires i + 1 + |RowsAfter(c, WithoutReturn(x))| <= ISIZE_MAX
    ensures var cs := [x] + RowsAfter(c, WithoutReturn(x));
            Differ(WithoutReturn(x), Closed(RunContents(v, cs)).files, FinishCount(CountAll(c, Trim(cs))).files)
  {
    hide Linked, View, Guard, InStep, HunkHeader, Lossy, CountLine, AdditionApart, WithoutReturn, RunContents, Closed, FinishCount, CountAll, Trim;
    var header := WithoutReturn(x);
    GuardFails(c, header, []);
    LinkedCounts(v, c, i);
    if AT <= header {
      HeaderShows(v, c, i, x);
    } else {
      assert [x] + RowsAfter(c, header) == [x];
      if DIFF_GIT <= header {
        FileRowShows(v, c, i, x);
      } else {
        MinusShows(v, c, i, x);
      }
    }
  }

  lemma {:induction false} BreakIsNoPlus(c: Count, header: seq<Byte>)
    requires !Guard(c, header, [])
    ensures !(PLUS <= header)
  {
    hide Guard, InStep, HunkHeader, Lossy, CountLine;
    GuardFails(c, header, []);
    OneKind(header);
  }

  lemma {:induction false} TrimConcat(a: seq<seq<Byte>>, b: seq<seq<Byte>>)
    ensures Trim(a + b) == Trim(a) + Trim(b)
    decreases |a|
  {
    hide WithoutReturn;
    if a == [] {
      assert a + b == b;
    } else {
      TrimConcat(a[1..], b);
      assert (a + b)[1..] == a[1..] + b;
    }
  }

  lemma {:induction false} CountAppend(c: Count, a: seq<seq<Byte>>, b: seq<seq<Byte>>)
    ensures CountAll(c, a + b) == CountAll(CountAll(c, a), b)
    decreases |a|
  {
    hide CountLine;
    if a == [] {
      assert a + b == b;
    } else {
      CountAppend(CountLine(c, a[0]), a[1..], b);
      assert (a + b)[1..] == a[1..] + b;
    }
  }

  // What the two list for line contents.
  lemma {:induction false} ListsDiffer(a: seq<seq<Byte>>, x: seq<Byte>)
    requires Guarded(NOTHING, Trim(a)) && !Guard(CountAll(NOTHING, Trim(a)), WithoutReturn(x), [])
    requires |a| + 1 + |RowsAfter(CountAll(NOTHING, Trim(a)), WithoutReturn(x))| <= ISIZE_MAX
    ensures var cs := a + ([x] + RowsAfter(CountAll(NOTHING, Trim(a)), WithoutReturn(x)));
            Differ(WithoutReturn(x), Files(cs), FinishCount(CountAll(NOTHING, Trim(cs))).files)
  {
    hide Linked, View, Guard, WithoutReturn, Guarded, CountLine, StepContents, Closed, FinishCount, Differ, RowsAfter;
    var c := CountAll(NOTHING, Trim(a));
    var rest := [x] + RowsAfter(c, WithoutReturn(x));
    NothingLinked();
    ContentsLinked(START, NOTHING, 0, a);
    StartView();
    RunViewed(START, a);
    BreakIsNoPlus(c, WithoutReturn(x));
    RunAppendContents(START, a, rest);
    TrimConcat(a, rest);
    CountAppend(NOTHING, Trim(a), Trim(rest));
    BreakShows(RunContents(START, a), c, |a|, x);
  }

  // ---- as bytes ----

  // Each line with a newline.
  function WithNewlines(cs: seq<seq<Byte>>): seq<seq<Byte>> {
    if cs == [] then [] else [cs[0] + [NEWLINE]] + WithNewlines(cs[1..])
  }

  predicate ChangeRows(cs: seq<seq<Byte>>) {
    forall k :: 0 <= k < |cs| ==> ChangeRow(cs[k])
  }

  lemma {:induction false} DrainsRows(k: HunkCount)
    ensures ChangeRows(Drain(k))
    decreases k.oldRemaining + k.newRemaining
  {
    if !Used(k) { DrainsRows(CountRow(k, DrainRow(k))); }
  }

  lemma {:induction false} RacesRows(o: HunkCount, k: HunkCount)
    ensures ChangeRows(Race(o, k))
    decreases o.oldRemaining + o.newRemaining + k.oldRemaining + k.newRemaining
  {
    if !Used(o) && !Used(k) { RacesRows(CountRow(o, RaceRow(o, k)), CountRow(k, RaceRow(o, k))); }
  }

  lemma {:induction false} ContinuesRows(c: Count, header: seq<Byte>)
    ensures ChangeRows(RowsAfter(c, header))
  {
    hide HunkHeader, Lossy, CountLine, TooLong, RowsLeft, ChangeRow, Drain, Race;
    var r, k := HunkHeader(Lossy(header)), OrUsed(CountLine(c, header).hunk);
    DrainsRows(k);
    RacesRows(RowsLeft(r), k);
  }

  lemma {:induction false} ChangeEnds(b: seq<Byte>)
    requires ChangeRow(b)
    ensures Terminated(b + [NEWLINE]) && Content(b + [NEWLINE]) == b
  {
    assert (b + [NEWLINE])[..1] == b;
  }

  lemma {:induction false} EndsAre(cs: seq<seq<Byte>>)
    requires ChangeRows(cs)
    ensures AllTerminated(WithNewlines(cs)) && PieceContents(WithNewlines(cs)) == cs && |Join(WithNewlines(cs))| >= |cs|
    decreases |cs|
  {
    hide Terminated, Content, ChangeRow;
    if cs != [] {
      ChangeEnds(cs[0]);
      EndsAre(cs[1..]);
      assert WithNewlines(cs)[1..] == WithNewlines(cs[1..]);
    }
  }

  // A patch whose last line is ended.
  predicate LinesEnded(raw: seq<Byte>) {
    raw == [] || raw[|raw| - 1] == NEWLINE
  }

  lemma {:induction false} EndedPieces(raw: seq<Byte>)
    requires LinesEnded(raw)
    ensures AllTerminated(Pieces(raw)) && |Pieces(raw)| <= |raw|
    decreases |raw|
  {
    if raw != [] {
      var n := PieceEnd(raw);
      var rest := raw[n..];
      assert rest != [] ==> rest[|rest| - 1] == raw[|raw| - 1];
      EndedPieces(rest);
      var p := raw[..n];
      assert p[n - 1] == raw[n - 1] == NEWLINE;
      assert Terminated(p);
      hide PieceEnd, Terminated;
      assert Pieces(raw) == [p] + Pieces(rest);
    }
  }

  lemma {:induction false} ExtendedPieces(raw: seq<Byte>, x: seq<Byte>, rest: seq<seq<Byte>>)
    requires LinesEnded(raw) && Terminated(x) && AllTerminated(rest)
    ensures Pieces(raw + x + Join(rest)) == Pieces(raw) + ([x] + rest)
  {
    hide Pieces, Terminated, LinesEnded;
    EndedPieces(raw);
    JoinPieces(raw);
    var tail := [x] + rest;
    assert tail[1..] == rest;
    TerminatedIsList(tail);
    ListConcat(Pieces(raw), tail);
    JoinConcat(Pieces(raw), tail);
    PiecesJoin(Pieces(raw) + tail);
    assert raw + x + Join(rest) == raw + (x + Join(rest));
  }

  // After any guarded patch, a line that breaks the guard, followed by the continuation:
  // the parser accepts the whole and lists other files than the counter, whenever the
  // whole fits memory.
  lemma {:induction false} BrokenGuardShows(raw: seq<Byte>, x: seq<Byte>)
    requires LinesEnded(raw) && Terminated(x) && Guarded(NOTHING, Bare(Pieces(raw)))
    requires !Guard(CountAll(NOTHING, Bare(Pieces(raw))), LineParts(x).0, [])
    ensures var all := raw + x + Join(WithNewlines(RowsAfter(CountAll(NOTHING, Bare(Pieces(raw))), LineParts(x).0)));
            var parsed := ParseRange(all, 0, |all|, UNLIMITED);
            |all| <= ISIZE_MAX ==>
              && parsed.Ok? && !SameFiles(parsed.value, Stats(all).files)
              && Differ(LineParts(x).0, parsed.value, Stats(all).files)
  {
    hide Pieces, LineParts, Bare, CountAll, Guard, Guarded, RowsAfter, Join, SameFiles, LinesEnded, Terminated, ParseRange, Files, WithoutReturn, FinishCount;
    hide Content, PieceContents, Trim, ViewFiles, Differ;
    var a, c := PieceContents(Pieces(raw)), CountAll(NOTHING, Bare(Pieces(raw)));
    var more := RowsAfter(c, LineParts(x).0);
    BareTrim(Pieces(raw));
    PartsJoin(x);
    ContinuesRows(c, LineParts(x).0);
    EndsAre(more);
    ExtendedPieces(raw, x, WithNewlines(more));
    ContentsConcat(Pieces(raw), [x] + WithNewlines(more));
    ContentsCons(x, WithNewlines(more));
    var all := raw + x + Join(WithNewlines(more));
    BareTrim(Pieces(all));
    EndedPieces(raw);
    ContentsLengths(Pieces(raw));
    if |all| <= ISIZE_MAX {
      assert |x| >= 1 by { NotEmpty(x); }
      ListsDiffer(a, Content(x));
      ParseIsOk(all);
      ParseMeans(all, UNLIMITED);
      var parsed := ParseRange(all, 0, |all|, UNLIMITED).value;
      DifferView(LineParts(x).0, parsed, Stats(all).files);
      DifferIsNotSame(LineParts(x).0, parsed, Stats(all).files);
    }
  }

  lemma {:induction false} NotEmpty(x: seq<Byte>)
    requires Terminated(x)
    ensures |x| >= 1
  {
  }

  lemma {:induction false} ContentsLengths(ps: seq<seq<Byte>>)
    ensures |PieceContents(ps)| == |ps|
    decreases |ps|
  {
    hide Content;
    if ps != [] { ContentsLengths(ps[1..]); }
  }

  // ---- inputs ----

  // A hunk header as git writes it, without section text.
  function Ranged(o: HunkHeaders.Side, n: HunkHeaders.Side): seq<Byte> {
    HunkHeaders.HeaderText(o, n, [])
  }

  predicate Printable(s: seq<Byte>) {
    s != [] && forall k :: 0 <= k < |s| ==> 32 <= s[k] <= 126
  }

  lemma {:induction false} PrintableLine(s: seq<Byte>)
    requires Printable(s)
    ensures Terminated(s + [NEWLINE]) && Content(s + [NEWLINE]) == s && WithoutReturn(s) == s && Lossy(s) == s
    ensures LineParts(s + [NEWLINE]).0 == s
  {
    assert (s + [NEWLINE])[..|s|] == s;
    PartsJoin(s + [NEWLINE]);
    assert Ascii(s);
    AsciiIsValid(s);
    LossyKeepsValid(s);
  }

  lemma {:induction false} PrintableConcat(s: seq<Byte>, t: seq<Byte>)
    requires Printable(s) && Printable(t)
    ensures Printable(s + t)
  {
  }

  lemma {:induction false} SidePrints(s: HunkHeaders.Side)
    ensures Printable(HunkHeaders.SideText(s)) && Printable([64, 64]) && Printable([SPACE]) && Printable([45]) && Printable([43])
  {
    hide HunkHeaders.SideText;
  }

  lemma {:induction false} RangedPrints(o: HunkHeaders.Side, n: HunkHeaders.Side)
    ensures Printable(Ranged(o, n))
  {
    SidePrints(o);
    SidePrints(n);
    hide HunkHeaders.SideText, Printable;
    var new_ := ([43] + HunkHeaders.SideText(n)) + [];
    assert new_ == [43] + HunkHeaders.SideText(n);
    PrintableConcat([43], HunkHeaders.SideText(n));
    PrintableConcat([SPACE], new_);
    var old_ := [45] + HunkHeaders.SideText(o);
    PrintableConcat([45], HunkHeaders.SideText(o));
    PrintableConcat(old_, [SPACE] + new_);
    PrintableConcat([SPACE], old_ + ([SPACE] + new_));
    PrintableConcat([64, 64], [SPACE] + (old_ + ([SPACE] + new_)));
  }

  lemma {:induction false} RangedReads(o: HunkHeaders.Side, n: HunkHeaders.Side)
    requires HunkHeaders.Fits(o) && HunkHeaders.Fits(n)
    ensures Printable(Ranged(o, n)) && AT <= Ranged(o, n)
    ensures HunkHeader(Lossy(Ranged(o, n))) == Ranges(o.start, HunkHeaders.CountOf(o), n.start, HunkHeaders.CountOf(n))
  {
    hide HunkHeader, HunkHeaders.HeaderText, Lossy, WithoutReturn, Content, LineParts, Terminated, Printable;
    HunkHeaders.HunkHeaderBack(o, n, []);
    RangedPrints(o, n);
    PrintableLine(Ranged(o, n));
  }

  lemma {:induction false} DiffGitPrints()
    ensures Printable(DIFF_GIT) && !(AT <= DIFF_GIT) && !(MINUS <= DIFF_GIT)
  {
    OneKind(DIFF_GIT);
  }

  // The counter after a `diff --git ` line, and a hunk header.
  lemma {:induction false} CountsBegun(o: HunkHeaders.Side, n: HunkHeaders.Side) returns (c: Count, d: Count)
    requires HunkHeaders.Fits(o) && HunkHeaders.Fits(n)
    ensures c == CountLine(NOTHING, DIFF_GIT) && c.files == [] && c.current.Some? && c.hunk.None? && c.current.value.additions == 0
    ensures d == CountLine(c, Ranged(o, n)) && d.files == [] && d.current.Some? && d.current.value.additions == 0
    ensures d.hunk == Some(HunkCount(HunkHeaders.CountOf(o), HunkHeaders.CountOf(n)))
  {
    hide Lossy, HunkHeader, CountLine, DiffGitPaths;
    c := CountLine(NOTHING, DIFF_GIT);
    CountsFile(NOTHING, DIFF_GIT);
    d := CountLine(c, Ranged(o, n));
    RangedReads(o, n);
    CountsOpen(c, Ranged(o, n));
  }

  lemma {:induction false} GuardsBegun(header: seq<Byte>)
    ensures Guarded(NOTHING, [DIFF_GIT]) && CountAll(NOTHING, [DIFF_GIT]) == CountLine(NOTHING, DIFF_GIT)
    ensures Guard(CountLine(NOTHING, DIFF_GIT), header, []) ==>
              && Guarded(NOTHING, [DIFF_GIT, header])
              && CountAll(NOTHING, [DIFF_GIT, header]) == CountLine(CountLine(NOTHING, DIFF_GIT), header)
  {
    DiffGitPrints();
    var c := CountLine(NOTHING, DIFF_GIT);
    assert Guard(NOTHING, DIFF_GIT, []) && Guard(NOTHING, DIFF_GIT, header) by { hide HunkHeader, Lossy, InStep, CountLine; }
    hide Guard, CountLine;
    assert [DIFF_GIT][1..] == [header][1..] == Bare([]) && [DIFF_GIT, header][1..] == [header];
    assert Guard(c, header, []) ==> Guarded(c, [header]);
    assert CountAll(c, [header]) == CountLine(c, header);
  }

  lemma {:induction false} DecimalLength(n: nat)
    ensures |HunkHeaders.Decimal(n)| <= n + 1
    decreases n
  {
    if n >= 10 { DecimalLength(n / 10); }
  }

  lemma {:induction false} ShortDecimal(n: nat)
    requires n <= USIZE_MAX
    ensures |HunkHeaders.Decimal(n)| <= USIZE_MAX / 10 + 2
  {
    DecimalLength(n / 10);
  }

  lemma {:induction false} RangedLength(o: HunkHeaders.Side, n: HunkHeaders.Side)
    requires HunkHeaders.Fits(o) && HunkHeaders.Fits(n)
    ensures |Ranged(o, n)| <= ISIZE_MAX - 1000
  {
    ShortDecimal(o.start);
    ShortDecimal(n.start);
    ShortDecimal(HunkHeaders.CountOf(o));
    ShortDecimal(HunkHeaders.CountOf(n));
    hide HunkHeaders.Decimal;
  }

  // Three lines as a patch.
  function ThreeLines(a: seq<Byte>, b: seq<Byte>, c: seq<Byte>): seq<Byte> {
    (a + [NEWLINE]) + (b + [NEWLINE]) + (c + [NEWLINE])
  }

  lemma {:induction false} JoinThree(x: seq<Byte>, y: seq<Byte>, z: seq<Byte>)
    ensures Join([x, y, z]) == x + y + z
  {
    var one: seq<seq<Byte>> := [z];
    assert [y, z][1..] == one && [x, y, z][1..] == [y, z];
    assert one[1..] == [] && z + [] == z;
    assert Join(one) == z;
    assert Join([y, z]) == y + z;
    assert x + (y + z) == x + y + z;
  }

  lemma {:induction false} ThreeContents(x: seq<Byte>, y: seq<Byte>, z: seq<Byte>)
    ensures PieceContents([x, y, z]) == [Content(x), Content(y), Content(z)]
    ensures Bare([x, y, z]) == [LineParts(x).0, LineParts(y).0, LineParts(z).0]
  {
    hide Content, LineParts;
    var one: seq<seq<Byte>> := [z];
    assert [y, z][1..] == one && [x, y, z][1..] == [y, z];
    assert one[1..] == [];
    assert PieceContents(one) == [Content(z)] && Bare(one) == [LineParts(z).0];
    assert PieceContents([y, z]) == [Content(y), Content(z)] && Bare([y, z]) == [LineParts(y).0, LineParts(z).0];
  }

  lemma {:induction false} ThreePieces(a: seq<Byte>, b: seq<Byte>, c: seq<Byte>)
    requires Printable(a) && Printable(b) && Printable(c)
    ensures PieceContents(Pieces(ThreeLines(a, b, c))) == [a, b, c] && Bare(Pieces(ThreeLines(a, b, c))) == [a, b, c]
  {
    hide Pieces, Terminated, Content, WithoutReturn, LineParts, Lossy, Printable, PieceContents, Bare, Join, PieceList;
    PrintableLine(a);
    PrintableLine(b);
    PrintableLine(c);
    var x, y, z := a + [NEWLINE], b + [NEWLINE], c + [NEWLINE];
    JoinThree(x, y, z);
    ThreeContents(x, y, z);
    TerminatedIsList([x, y, z]);
    PiecesJoin([x, y, z]);
  }

  lemma {:induction false} TrimThree(a: seq<Byte>, b: seq<Byte>, c: seq<Byte>)
    requires WithoutReturn(a) == a && WithoutReturn(b) == b && WithoutReturn(c) == c
    ensures Trim([a, b, c]) == [a, b, c] && Trim([a, b]) == [a, b] && Trim([a]) == [a] && Trim([b, c]) == [b, c]
  {
    hide WithoutReturn;
    assert [a][1..] == [] && [c][1..] == [] && [b][1..] == [] && [b, c][1..] == [c] && [a, b][1..] == [b] && [a, b, c][1..] == [b, c];
    assert Trim([c]) == [c] && Trim([b]) == [b];
  }

  lemma {:induction false} CountThree(a: seq<Byte>, b: seq<Byte>, x: seq<Byte>)
    ensures CountAll(NOTHING, [a, b, x]) == CountLine(CountLine(CountLine(NOTHING, a), b), x)
  {
    hide CountLine;
    assert [x][1..] == [] && [b, x][1..] == [x] && [a, b, x][1..] == [b, x];
    assert CountAll(CountLine(CountLine(NOTHING, a), b), [x]) == CountLine(CountLine(CountLine(NOTHING, a), b), x);
    assert CountAll(CountLine(NOTHING, a), [b, x]) == CountAll(CountLine(CountLine(NOTHING, a), b), [x]);
  }

  // The three lines as the two machines see them.
  lemma {:induction false} ListsOf(a: seq<Byte>, b: seq<Byte>, c: seq<Byte>)
    requires Printable(a) && Printable(b) && Printable(c) && |ThreeLines(a, b, c)| <= ISIZE_MAX
    ensures var raw := ThreeLines(a, b, c);
            var parsed := ParseRange(raw, 0, |raw|, UNLIMITED);
            && parsed.Ok? && ViewFiles(parsed.value) == Files([a, b, c])
            && Stats(raw) == FinishCount(CountLine(CountLine(CountLine(NOTHING, a), b), c))
  {
    hide Printable, ThreeLines, Pieces, ParseRange, ViewFiles, Files, CountLine, CountAll, Bare, PieceContents, FinishCount;
    ThreePieces(a, b, c);
    CountThree(a, b, c);
    ParseIsOk(ThreeLines(a, b, c));
    ParseMeans(ThreeLines(a, b, c), UNLIMITED);
  }

  lemma {:induction false} OneRowGuards(a: nat, b: nat, c: Count, d: Count)
    requires a <= U32_MAX && b <= U32_MAX && c.current.Some? && c == CountLine(NOTHING, DIFF_GIT)
    requires d == CountLine(c, Ranged(HunkHeaders.Short(a), HunkHeaders.Short(b))) && d.hunk == Some(HunkCount(1, 1))
    ensures var h := Ranged(HunkHeaders.Short(a), HunkHeaders.Short(b));
            Guarded(NOTHING, [DIFF_GIT, h]) && CountAll(NOTHING, [DIFF_GIT, h]) == d && !Guard(d, DIFF_GIT, [])
  {
    var h := Ranged(HunkHeaders.Short(a), HunkHeaders.Short(b));
    assert InStep(Ranges(a, 1, b, 1), d.hunk);
    hide HunkHeader, Lossy, CountLine, CountAll, Guarded, InStep, Ranged;
    DiffGitPrints();
    assert !Guard(d, DIFF_GIT, []);
    hide Guard;
    RangedReads(HunkHeaders.Short(a), HunkHeaders.Short(b));
    GuardOpens(c, h);
    GuardsBegun(h);
  }

  // A `diff --git ` line for the one row that a hunk announces: the parser lists two
  // files, the counter one.
  lemma {:induction false} FileRow(a: nat, b: nat)
    requires a <= U32_MAX && b <= U32_MAX
    ensures var raw := ThreeLines(DIFF_GIT, Ranged(HunkHeaders.Short(a), HunkHeaders.Short(b)), DIFF_GIT);
            var parsed := ParseRange(raw, 0, |raw|, UNLIMITED);
            parsed.Ok? && |parsed.value| == 2 && |Stats(raw).files| == 1
  {
    hide HunkHeader, Lossy, CountLine, Pieces, Bare, PieceContents, ParseRange, ViewFiles, WithoutReturn, Terminated, Content, LineParts, Guarded, Guard;
    hide Ranged, Printable, Trim, CountAll, Files, HunkHeaders.Fits, Stats;
    var o, n := HunkHeaders.Short(a), HunkHeaders.Short(b);
    var h := Ranged(o, n);
    assert HunkHeaders.Fits(o) && HunkHeaders.Fits(n) by { ShortFits(a); ShortFits(b); }
    RangedReads(o, n);
    RangedLength(o, n);
    DiffGitPrints();
    PrintableLine(DIFF_GIT);
    PrintableLine(h);
    var c, d := CountsBegun(o, n);
    OneRowGuards(a, b, c, d);
    TrimThree(DIFF_GIT, h, DIFF_GIT);
    CountsRow(d, DIFF_GIT);
    ListsDiffer([DIFF_GIT, h], DIFF_GIT);
    assert [DIFF_GIT, h] + ([DIFF_GIT] + []) == [DIFF_GIT, h, DIFF_GIT];
    CountThree(DIFF_GIT, h, DIFF_GIT);
    ListsOf(DIFF_GIT, h, DIFF_GIT);
    var raw := ThreeLines(DIFF_GIT, h, DIFF_GIT);
    ViewFilesAt(ParseRange(raw, 0, |raw|, UNLIMITED).value);
  }

  lemma {:induction false} ShortFits(a: nat)
    requires a <= U32_MAX
    ensures HunkHeaders.Fits(HunkHeaders.Short(a))
  {
  }

  // A hunk header that leaves the parser nothing to wait for: no rows, or a start so far
  // past 32 bits that the clamped bound is behind them.
  predicate NothingLeft(o: HunkHeaders.Side, n: HunkHeaders.Side) {
    && HunkHeaders.Fits(o) && HunkHeaders.Fits(n)
    && Used(RowsLeft(Ranges(o.start, HunkHeaders.CountOf(o), n.start, HunkHeaders.CountOf(n))))
  }

  // The row after it: an addition to the counter, nothing to the parser.
  lemma {:induction false} RowAfterNothing(o: HunkHeaders.Side, n: HunkHeaders.Side)
    requires NothingLeft(o, n)
    ensures var raw := ThreeLines(DIFF_GIT, Ranged(o, n), [43]);
            var parsed := ParseRange(raw, 0, |raw|, UNLIMITED);
            && parsed.Ok? && |parsed.value| == 1 && parsed.value[0].additions == 0
            && |Stats(raw).files| == 1 && Stats(raw).files[0].additions == 1
  {
    var h, raw := Ranged(o, n), ThreeLines(DIFF_GIT, Ranged(o, n), [43]);
    assert Printable([43]);
    assert |DIFF_GIT| == 11;
    hide HunkHeader, Lossy, CountLine, Pieces, ParseRange, ViewFiles, Ranged, Printable, Files, HunkHeaders.Fits, Stats, RowsLeft;
    RangedReads(o, n);
    RangedLength(o, n);
    DiffGitPrints();
    var c, d := CountsBegun(o, n);
    CountsRow(d, [43]);
    ListsOf(DIFF_GIT, h, [43]);
    NothingParsed(o, n, c, d);
    SameFilesView(ParseRange(raw, 0, |raw|, UNLIMITED).value, FinishCount(d).files);
  }

  lemma {:induction false} BeginsLinked(c: Count)
    requires c == CountLine(NOTHING, DIFF_GIT)
    ensures Linked(RunContents(START, [DIFF_GIT]), c, 1)
  {
    hide HunkHeader, Lossy, CountLine, WithoutReturn, Linked, Guarded, RunContents, CountAll, Guard, Printable;
    DiffGitPrints();
    PrintableLine(DIFF_GIT);
    GuardsBegun(DIFF_GIT);
    NothingLinked();
    TrimThree(DIFF_GIT, DIFF_GIT, DIFF_GIT);
    ContentsLinked(START, NOTHING, 0, [DIFF_GIT]);
  }

  lemma {:induction false} NothingParsed(o: HunkHeaders.Side, n: HunkHeaders.Side, c: Count, d: Count)
    requires NothingLeft(o, n) && c == CountLine(NOTHING, DIFF_GIT) && c.current.Some? && d == CountLine(c, Ranged(o, n))
    ensures SameFiles(Files([DIFF_GIT, Ranged(o, n), [43]]), FinishCount(d).files)
  {
    hide HunkHeader, Lossy, CountLine, WithoutReturn, Linked, StepContents, FilesLinked, Closed, FinishCount, SameFiles, Complete, Ranged, RowsLeft, Printable, Trim;
    hide CountAll, CountApart, Content, LineParts, Terminated, HunkHeaders.Fits, StartHunk, Used;
    var h := Ranged(o, n);
    RangedReads(o, n);
    PrintableLine(h);
    BeginsLinked(c);
    OneKind(h);
    RunAppendContents(START, [DIFF_GIT], [h, [43]]);
    assert [DIFF_GIT] + [h, [43]] == [DIFF_GIT, h, [43]];
    var v := RunContents(START, [DIFF_GIT]);
    HeaderBoth(v, c, 1, h, Some([43]));
    var w := StepContents(v, h, Some([43])).0;
    CompleteAtOnce(Lossy(h));
    CompleteStep(w, d, 2);
    ClosedLinked(StepContents(w, [43], None).0, d, 2);
    assert [h, [43]][1..] == [[43]];
    OneMore(w, d, [43]);
  }

  lemma {:induction false} CompleteAtOnce(header: seq<Byte>)
    requires Used(RowsLeft(HunkHeader(header)))
    ensures Complete(StartHunk(header))
  {
    hide HunkHeader;
  }
}

// Where limits part the two parsers: patches of any size whose only row is a no-newline
// marker.
module ParallelLimits {
  import opened Wrappers
  import opened Utf8
  import opened GitPaths
  import opened PatchModel
  import opened PatchPieces
  import opened PatchParser
  import opened HeaderLines
  import opened PatchCounts
  import opened ParallelParser

  const NO_ROWS := Limits(None, Some(0), None, None, None)

  // The first header goes on with any text, as a long path would.
  function MarkerLines(pad: seq<Byte>): seq<seq<Byte>> {
    [DIFF_GIT + pad + [NEWLINE], AT + [NEWLINE], NO_NEWLINE + [NEWLINE], DIFF_GIT]
  }

  function MarkerPatch(pad: seq<Byte>): seq<Byte> {
    Join(MarkerLines(pad))
  }

  lemma {:induction false} PlainLine(s: seq<Byte>)
    requires s != [] && NEWLINE !in s
    ensures Terminated(s + [NEWLINE]) && Piece(s) && Content(s + [NEWLINE]) == s && Content(s) == s
  {
    assert (s + [NEWLINE])[..|s|] == s;
  }

  lemma {:induction false} NoNewlines(pad: seq<Byte>)
    requires NEWLINE !in pad
    ensures NEWLINE !in DIFF_GIT && NEWLINE !in AT && NEWLINE !in NO_NEWLINE && NEWLINE !in DIFF_GIT + pad
    ensures WithoutReturn(DIFF_GIT) == DIFF_GIT && WithoutReturn(AT) == AT && WithoutReturn(NO_NEWLINE) == NO_NEWLINE
    ensures DIFF_GIT <= WithoutReturn(DIFF_GIT + pad)
  {
    assert |DIFF_GIT| == 11 && |AT| == 3 && |NO_NEWLINE| == 27;
  }

  lemma {:induction false} MarkedContents(pad: seq<Byte>)
    requires NEWLINE !in pad
    ensures Contents(Lines(MarkerPatch(pad), 0, |MarkerPatch(pad)|)) == [DIFF_GIT + pad, AT, NO_NEWLINE, DIFF_GIT]
  {
    NoNewlines(pad);
    PlainLine(DIFF_GIT + pad);
    PlainLine(DIFF_GIT);
    PlainLine(AT);
    PlainLine(NO_NEWLINE);
    hide Join, Pieces, Lines, Content, Terminated, Piece, Contents, WithoutReturn;
    MarkedList(pad);
    PiecesJoin(MarkerLines(pad));
    PiecesAreLines(MarkerPatch(pad), 0);
    assert MarkerPatch(pad)[0..] == MarkerPatch(pad);
    FourContents(DIFF_GIT + pad + [NEWLINE], AT + [NEWLINE], NO_NEWLINE + [NEWLINE], DIFF_GIT);
  }

  lemma {:induction false} MarkedList(pad: seq<Byte>)
    requires Terminated(DIFF_GIT + pad + [NEWLINE]) && Terminated(AT + [NEWLINE]) && Terminated(NO_NEWLINE + [NEWLINE]) && Piece(DIFF_GIT)
    ensures PieceList(MarkerLines(pad))
  {
    hide Piece;
    TerminatedIsPiece(DIFF_GIT + pad + [NEWLINE]);
    TerminatedIsPiece(AT + [NEWLINE]);
    TerminatedIsPiece(NO_NEWLINE + [NEWLINE]);
    hide Terminated;
    var ps := MarkerLines(pad);
    assert ps[0] == DIFF_GIT + pad + [NEWLINE] && ps[1] == AT + [NEWLINE] && ps[2] == NO_NEWLINE + [NEWLINE] && ps[3] == DIFF_GIT;
  }

  lemma {:induction false} TerminatedIsPiece(p: seq<Byte>)
    requires Terminated(p)
    ensures Piece(p)
  {
  }

  lemma {:induction false} FourContents(a: seq<Byte>, b: seq<Byte>, c: seq<Byte>, d: seq<Byte>)
    ensures PieceContents([a, b, c, d]) == [Content(a), Content(b), Content(c), Content(d)]
  {
    hide Content;
    assert [d][1..] == [] && [c, d][1..] == [d] && [b, c, d][1..] == [c, d] && [a, b, c, d][1..] == [b, c, d];
    assert PieceContents([d]) == [Content(d)];
    assert PieceContents([c, d]) == [Content(c), Content(d)];
    assert PieceContents([b, c, d]) == [Content(b), Content(c), Content(d)];
  }

  lemma {:induction false} FourLines(lines: seq<Line>, a: seq<Byte>, b: seq<Byte>, c: seq<Byte>, d: seq<Byte>)
    requires Contents(lines) == [a, b, c, d]
    ensures |lines| == 4 && lines[0].bytes == a && lines[1].bytes == b && lines[2].bytes == c && lines[3].bytes == d
  {
    ContentsLength(lines);
    var one := lines[1..];
    var two := one[1..];
    var three := two[1..];
    assert Contents(lines) == [lines[0].bytes] + Contents(one);
    assert Contents(one) == [one[0].bytes] + Contents(two);
    assert Contents(two) == [two[0].bytes] + Contents(three);
    assert Contents(three) == [three[0].bytes] + Contents(three[1..]);
    assert Contents(lines)[0] == a && Contents(lines)[1] == b && Contents(lines)[2] == c && Contents(lines)[3] == d;
    assert Contents(one)[0] == b && Contents(one)[1] == c && Contents(one)[2] == d;
    assert Contents(two)[0] == c && Contents(two)[1] == d;
  }

  lemma {:induction false} ContentsLength(lines: seq<Line>)
    ensures |Contents(lines)| == |lines|
    decreases |lines|
  {
    if lines != [] { ContentsLength(lines[1..]); }
  }

  // The states the parser goes through, its file opened by this header.
  function Opened(header: seq<Byte>): State { State([], Some(StartFile(DiffGitPaths(Lossy(header)))), None, 0, 0) }

  function InMarkedHunk(header: seq<Byte>, rows: nat): State { Opened(header).(hunk := Some(StartHunk(Lossy(AT))), hunks := 1, rows := rows) }

  predicate MarkedHeaders(lines: seq<Line>) {
    && |lines| == 4 && DIFF_GIT <= Header(lines[0]) && Header(lines[1]) == AT
    && lines[2].bytes == Header(lines[2]) == NO_NEWLINE && Header(lines[3]) == DIFF_GIT
  }

  lemma {:induction false} MarkedSteps(raw: seq<Byte>, lines: seq<Line>, limits: Limits)
    requires MarkedHeaders(lines) && limits.files.None? && limits.hunks.None? && limits.lineBytes.None?
    ensures var h := Header(lines[0]);
            && Step(raw, START, lines[0], Some(lines[1]), limits) == Next(Opened(h), 1)
            && Step(raw, Opened(h), lines[1], Some(lines[2]), limits) == Next(InMarkedHunk(h, 0), 1)
            && Step(raw, InMarkedHunk(h, 0), lines[2], Some(lines[3]), limits) ==
               (if Over(limits.rows, 1) then Stop(Exceeded(RowsLimit, limits.rows.value, 1)) else Next(InMarkedHunk(h, 1), 1))
            && Step(raw, InMarkedHunk(h, 1), lines[3], None, limits) == Next(Closed(InMarkedHunk(h, 1)).(current := Opened(DIFF_GIT).current), 1)
  {
    hide Header, DiffGitPaths, Lossy, StartHunk, FinishFileBuilder, Complete;
    assert Closed(START) == START;
    assert NO_NEWLINE[0] == BACKSLASH;
    OneKind(DIFF_GIT);
    OneKind(AT);
    OneKind(NO_NEWLINE);
    hide Closed;
    ClosedCounts(InMarkedHunk(Header(lines[0]), 1));
  }

  function MarkedEnd(header: seq<Byte>): State {
    Closed(InMarkedHunk(header, 1)).(current := Opened(DIFF_GIT).current)
  }

  lemma {:induction false} FourSteps(raw: seq<Byte>, lines: seq<Line>, limits: Limits)
    requires MarkedHeaders(lines) && limits.files.None? && limits.hunks.None? && limits.lineBytes.None?
    ensures Run(raw, START, lines, limits) ==
            if Over(limits.rows, 1) then Err(Exceeded(RowsLimit, limits.rows.value, 1)) else Ok(MarkedEnd(Header(lines[0])))
  {
    hide Step, Opened, InMarkedHunk, Header, Closed;
    var h := Header(lines[0]);
    MarkedSteps(raw, lines, limits);
    assert lines[1..][1..] == lines[2..] && lines[2..][1..] == lines[3..] && lines[3..][1..] == [];
    assert Peek(lines[1..]) == Some(lines[1]) && Peek(lines[2..]) == Some(lines[2]) && Peek(lines[3..]) == Some(lines[3]);
    if !Over(limits.rows, 1) {
      assert Run(raw, InMarkedHunk(h, 1), lines[3..], limits) == Ok(MarkedEnd(h));
    }
    assert Run(raw, InMarkedHunk(h, 0), lines[2..], limits) ==
           if Over(limits.rows, 1) then Err(Exceeded(RowsLimit, limits.rows.value, 1)) else Run(raw, InMarkedHunk(h, 1), lines[3..], limits);
    assert Run(raw, Opened(h), lines[1..], limits) == Run(raw, InMarkedHunk(h, 0), lines[2..], limits);
  }

  lemma {:induction false} NoRowsShown(header: seq<Byte>)
    ensures CountRows(Closed(MarkedEnd(header)).files) == 0
  {
    var f := OneHunkFile(header);
    var g := NoHunkFile(header, f);
    hide DiffGitPaths, Lossy, HunkHeader, Closed, MarkedEnd, Hunks, CountRows, CountLines;
    CountsConcat([f], [g]);
    OneCount(f);
    OneCount(g);
  }

  lemma {:induction false} OneHunkFile(header: seq<Byte>) returns (f: DiffFile)
    ensures Closed(InMarkedHunk(header, 1)).files == [f] && CountLines(Hunks(f)) == 0
  {
    hide DiffGitPaths, Lossy, HunkHeader;
    f := FinishFileBuilder(FinishHunk(InMarkedHunk(header, 1)).current.value);
    var h := FinishHunkBuilder(InMarkedHunk(header, 1).hunk.value);
    assert Hunks(f) == [h] && h.lines == [];
    LinesSnoc([], h);
    assert [] + [h] == [h];
    NoHunkNoRow();
  }

  lemma {:induction false} NoHunkFile(header: seq<Byte>, f: DiffFile) returns (g: DiffFile)
    requires Closed(InMarkedHunk(header, 1)).files == [f]
    ensures Closed(MarkedEnd(header)).files == [f] + [g] && CountLines(Hunks(g)) == 0
  {
    hide DiffGitPaths, Lossy;
    g := FinishFileBuilder(Opened(DIFF_GIT).current.value);
    ClosedCounts(InMarkedHunk(header, 1));
    NoHunkNoRow();
    hide InMarkedHunk;
  }

  // It begins with a header, and another one begins its last line.
  lemma {:induction false} TwoSections(pad: seq<Byte>)
    ensures var raw := MarkerPatch(pad); |pad| <= |raw| && HeaderAt(raw, 0) && exists i :: 0 < i < |raw| && SectionAt(raw, i)
  {
    var ps := MarkerLines(pad);
    FourJoin(ps[0], ps[1], ps[2], ps[3]);
    EndsWithHeader(DIFF_GIT + pad + [NEWLINE] + AT + [NEWLINE] + NO_NEWLINE, DIFF_GIT);
    assert MarkerPatch(pad) == DIFF_GIT + pad + [NEWLINE] + AT + [NEWLINE] + NO_NEWLINE + [NEWLINE] + DIFF_GIT;
    assert MarkerPatch(pad)[0..|DIFF_GIT|] == DIFF_GIT;
  }

  lemma {:induction false} FourJoin(a: seq<Byte>, b: seq<Byte>, c: seq<Byte>, d: seq<Byte>)
    ensures Join([a, b, c, d]) == a + (b + (c + d))
  {
    var one: seq<seq<Byte>> := [d];
    assert [c, d][1..] == one && [b, c, d][1..] == [c, d] && [a, b, c, d][1..] == [b, c, d];
    assert one[1..] == [] && d + [] == d;
    assert Join(one) == d;
    assert Join([c, d]) == c + d;
    assert Join([b, c, d]) == b + (c + d);
  }

  lemma {:induction false} EndsWithHeader(front: seq<Byte>, header: seq<Byte>)
    requires header == DIFF_GIT
    ensures var raw := front + [NEWLINE] + header; |front| + 1 < |raw| && SectionAt(raw, |front| + 1)
  {
    var raw := front + [NEWLINE] + header;
    assert |DIFF_GIT| == 11;
    assert raw[|front|] == NEWLINE && raw[|front| + 1..|front| + 1 + |header|] == header;
  }

  // With a limit of no rows, the serial parser refuses such a patch for the marker it
  // counts; the entry point accepts it as soon as the patch is large enough to be split
  // and there are threads for it.
  lemma {:induction false} MarkerParts(pad: seq<Byte>, poolThreads: nat, minBytes: nat)
    requires NEWLINE !in pad && 1 < poolThreads && minBytes <= |MarkerPatch(pad)|
    ensures Serial(MarkerPatch(pad), NO_ROWS) == Err(Exceeded(RowsLimit, 0, 1))
    ensures Entry(MarkerPatch(pad), NO_ROWS, poolThreads, minBytes).Ok?
  {
    hide Lines, Closed, Opened, InMarkedHunk, WithoutReturn, CountRows, Run, Contents, MarkerPatch, MarkedEnd, SectionAt, HeaderAt;
    var raw := MarkerPatch(pad);
    NoNewlines(pad);
    TwoSections(pad);
    MarkedContents(pad);
    var lines := Lines(raw, 0, |raw|);
    FourLines(lines, DIFF_GIT + pad, AT, NO_NEWLINE, DIFF_GIT);
    FourSteps(raw, lines, NO_ROWS);
    FourSteps(raw, lines, TaskLimits(NO_ROWS));
    NoRowsShown(Header(lines[0]));
  }

  // So it does at the size from which the released program splits patches.
  lemma {:induction false} MarkerPartsLargePatches() returns (pad: seq<Byte>)
    ensures var raw := MarkerPatch(pad);
            && Serial(raw, NO_ROWS).Err?
            && forall poolThreads :: 1 < poolThreads ==> Entry(raw, NO_ROWS, poolThreads, PARALLEL_PARSE_MIN_BYTES).Ok?
  {
    hide MarkerPatch, Serial, Entry;
    pad := seq(PARALLEL_PARSE_MIN_BYTES, i => 97);
    TwoSections(pad);
    MarkerParts(pad, 2, PARALLEL_PARSE_MIN_BYTES);
    forall poolThreads | 1 < poolThreads ensures Entry(MarkerPatch(pad), NO_ROWS, poolThreads, PARALLEL_PARSE_MIN_BYTES).Ok? {
      MarkerParts(pad, poolThreads, PARALLEL_PARSE_MIN_BYTES);
    }
  }
}

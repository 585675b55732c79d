// A rewritten one-file section parses to the display path: which sides the file shows is
// decided by its status lines and by the sides whose headers name /dev/null.
module DifftoolPaths {
  import opened Wrappers
  import opened Utf8
  import opened GitPaths
  import opened PatchModel
  import opened PatchPieces
  import opened PatchParser
  import opened HeaderLines
  import opened PathRoundTrip
  import opened PatchMeaning
  import opened Difftool
  import opened DifftoolMeaning

  predicate NamesOther(header: seq<Byte>) {
    RENAME_FROM <= header || RENAME_TO <= header || COPY_FROM <= header || COPY_TO <= header
  }

  // A header line that renames and copies nothing, nor names a side after a hunk.
  predicate QuietLine(header: seq<Byte>, beforeHunks: bool) {
    !NamesOther(header) && (!beforeHunks ==> !(MINUS <= header) && !(PLUS <= header))
  }

  // The line is read as a header line of the file.
  predicate HeaderPosition(t: State, header: seq<Byte>) {
    t.hunk.None? && t.current.Some? && !(AT <= header)
  }

  predicate QuietAt(t: State, header: seq<Byte>) {
    HeaderPosition(t, header) ==> QuietLine(header, t.current.value.hunks == [])
  }

  // Every header line the parser comes across is quiet.
  predicate Quiet(v: State, cs: seq<seq<Byte>>)
    decreases |cs|
  {
    cs == [] || (QuietAt(Settle(v, Alone(cs[0])), WithoutReturn(cs[0])) && Quiet(StepContents(v, cs[0], Head(cs[1..])).0, cs[1..]))
  }

  // Whether the last header of a side before the first hunk names /dev/null.
  predicate LastNull(prefix: seq<Byte>, body: seq<seq<Byte>>, last: bool)
    decreases |body|
  {
    if body == [] || AT <= HeaderOf(body[0]) then last
    else LastNull(prefix, body[1..], if prefix <= HeaderOf(body[0]) then HeaderOf(body[0])[|prefix|..] == DEV_NULL else last)
  }

  function SideOf(isNull: bool, path: seq<Byte>): Option<seq<Byte>> {
    if isNull then None else Some(path)
  }

  predicate PlainStatus(s: FileStatus) {
    s == Modified || s == Added || s == Deleted || s == TypeChanged
  }

  // What one header line makes of the file's status.  Mode lines before the hunks are gone
  // after rewriting; a null side is one whose header is exactly /dev/null.
  function StatusAfter(status: FileStatus, header: seq<Byte>, beforeHunks: bool): FileStatus {
    if NEW_FILE <= header then Added
    else if DELETED_FILE <= header then Deleted
    else if TempMode(header) then (if beforeHunks then status else TypeChanged)
    else if beforeHunks && MINUS <= header && header[|MINUS|..] == DEV_NULL then Added
    else if beforeHunks && PLUS <= header && header[|PLUS|..] == DEV_NULL then Deleted
    else status
  }

  function StatusAt(t: State, header: seq<Byte>, status: FileStatus): FileStatus {
    if HeaderPosition(t, header) then StatusAfter(status, header, t.current.value.hunks == []) else status
  }

  // The status that the header lines of a body lead to, in order.
  function FinalStatus(v: State, cs: seq<seq<Byte>>, status: FileStatus): FileStatus
    decreases |cs|
  {
    if cs == [] then status
    else FinalStatus(StepContents(v, cs[0], Head(cs[1..])).0, cs[1..], StatusAt(Settle(v, Alone(cs[0])), WithoutReturn(cs[0]), status))
  }

  // ---- one header line ----

  lemma {:induction false} SamePathPrefixes(header: seq<Byte>)
    ensures NamesOther(Lossy(header)) <==> NamesOther(header)
    ensures (MINUS <= Lossy(header) <==> MINUS <= header) && (PLUS <= Lossy(header) <==> PLUS <= header)
  {
    hide Lossy;
    LossyPrefix(RENAME_FROM, header);
    LossyPrefix(RENAME_TO, header);
    LossyPrefix(COPY_FROM, header);
    LossyPrefix(COPY_TO, header);
    LossyPrefix(MINUS, header);
    LossyPrefix(PLUS, header);
  }

  lemma {:induction false} SameStatusPrefixes(header: seq<Byte>)
    ensures (NEW_FILE <= Lossy(header) <==> NEW_FILE <= header) && (DELETED_FILE <= Lossy(header) <==> DELETED_FILE <= header)
    ensures TempMode(Lossy(header)) <==> TempMode(header)
  {
    hide Lossy;
    LossyPrefix(NEW_FILE, header);
    LossyPrefix(DELETED_FILE, header);
    LossyPrefix(OLD_MODE, header);
    LossyPrefix(NEW_MODE, header);
  }

  lemma {:induction false} KeepsPaths(f: FileBuilder, header: seq<Byte>)
    requires !NamesOther(header) && !(MINUS <= header) && !(PLUS <= header) && PlainStatus(f.status)
    ensures var g := ApplyHeader(f, Lossy(header));
            && g.oldPath == f.oldPath && g.newPath == f.newPath && PlainStatus(g.status)
            && g.status == StatusAfter(f.status, header, false)
  {
    SamePathPrefixes(header);
    SameStatusPrefixes(header);
    hide Lossy, BinaryMarker, UnifiedPath, MetadataPath, TrimMatches;
    StatusOnly(f, Lossy(header));
    hide ApplyHeader, NamesOther, TempMode;
  }

  lemma {:induction false} StatusOnly(f: FileBuilder, line: seq<Byte>)
    requires !NamesOther(line) && !(MINUS <= line) && !(PLUS <= line) && PlainStatus(f.status)
    ensures var g := ApplyHeader(f, line);
            && g.oldPath == f.oldPath && g.newPath == f.newPath
            && g.status == (if NEW_FILE <= line then Added else if DELETED_FILE <= line then Deleted else if TempMode(line) then TypeChanged else f.status)
  {
    hide BinaryMarker, UnifiedPath, MetadataPath, TrimMatches;
  }

  lemma {:induction false} NullHeaders(f: FileBuilder)
    ensures ApplyHeader(f, MINUS + DEV_NULL) == f.(status := Added, oldPath := None)
    ensures ApplyHeader(f, PLUS + DEV_NULL) == f.(status := Deleted, newPath := None)
  {
    assert DEV_NULL[0] == 47 && TAB !in DEV_NULL;
    UpToAll(DEV_NULL, TAB);
    assert UnifiedPath(DEV_NULL) == DEV_NULL;
    AfterPrefix(MINUS, DEV_NULL);
    AfterPrefix(PLUS, DEV_NULL);
    OneKind(MINUS + DEV_NULL);
    OneKind(PLUS + DEV_NULL);
    hide UnifiedPath, StatusLine, BinaryMarker, ApplyStatus, StripSide, UpTo;
  }

  // What a rewritten header line does to the paths.
  lemma {:induction false} NewHeaderNames(f: FileBuilder, header: seq<Byte>, path: seq<Byte>, oldNull: bool, newNull: bool)
    requires ValidUtf8(path) && NewHeader(header, path).Some? && PlainStatus(f.status)
    requires f.oldPath == SideOf(oldNull, path) && f.newPath == SideOf(newNull, path)
    ensures var g := ApplyHeader(f, Lossy(NewHeader(header, path).value));
            && PlainStatus(g.status)
            && g.status == StatusAfter(f.status, header, true)
            && g.oldPath == SideOf(if MINUS <= header then header[|MINUS|..] == DEV_NULL else oldNull, path)
            && g.newPath == SideOf(if PLUS <= header then header[|PLUS|..] == DEV_NULL else newNull, path)
  {
    hide ApplyHeader, PatchPath, Lossy, ValidUtf8, LineSafe, StatusLine, BinaryMarker, StatusAfter, EndsWith, NamesOther;
    var h := NewHeader(header, path).value;
    NewHeaderPrefix(header, path);
    SafeLine(h);
    SideStatus(f.status, header);
    if MINUS <= header || PLUS <= header {
      UnifiedHeadersBack(path, f);
      NullHeaders(f);
    } else {
      BinaryIsNoSide(h);
      BinaryNamesNothing(h);
      SideStatus(f.status, h);
      KeepsPaths(f, h);
    }
  }

  // The status after a header line that the rewriter rewrites.
  lemma {:induction false} SideStatus(status: FileStatus, header: seq<Byte>)
    ensures MINUS <= header ==> !(PLUS <= header) && StatusAfter(status, header, true) == if header[|MINUS|..] == DEV_NULL then Added else status
    ensures PLUS <= header ==> StatusAfter(status, header, true) == if header[|PLUS|..] == DEV_NULL then Deleted else status
    ensures BINARY_FILES <= header ==> StatusAfter(status, header, true) == status && StatusAfter(status, header, false) == status
  {
    assert MINUS[0] == 45 && PLUS[0] == 43 && BINARY_FILES[0] == 66 && NEW_FILE[0] == 110 && DELETED_FILE[0] == 100 && OLD_MODE[0] == 111 && NEW_MODE[0] == 110;
  }

  lemma {:induction false} BinaryNamesNothing(h: seq<Byte>)
    requires BINARY_FILES <= h
    ensures !NamesOther(h)
  {
    assert BINARY_FILES[0] == 66 && RENAME_FROM[0] == RENAME_TO[0] == 114 && COPY_FROM[0] == COPY_TO[0] == 99;
  }

  // ---- one step ----

  predicate SamePaths(f: FileBuilder, g: FileBuilder) {
    f.oldPath == g.oldPath && f.newPath == g.newPath && f.status == g.status
  }

  lemma {:induction false} FinishHunkPaths(s: State)
    requires s.current.Some?
    ensures FinishHunk(s).current.Some? && SamePaths(FinishHunk(s).current.value, s.current.value) && FinishHunk(s).files == s.files
    ensures FinishHunk(s).hunk.None? && (s.hunk.Some? || s.current.value.hunks != [] ==> FinishHunk(s).current.value.hunks != [])
  {
  }

  // A line that is quiet or no header line leaves the file open; a header line works on it.
  lemma {:induction false} QuietStep(raw: seq<Byte>, s: State, line: Line, next: Option<Line>)
    requires s.current.Some? && !(DIFF_GIT <= Header(line)) && QuietAt(Settle(s, line), Header(line))
    ensures var n := Step(raw, s, line, next, UNLIMITED);
            && n.Next? && n.consumed == 1 && n.state.current.Some? && n.state.files == s.files
            && if HeaderPosition(Settle(s, line), Header(line))
               then SamePaths(n.state.current.value, ApplyHeader(Settle(s, line).current.value, Lossy(Header(line))))
               else SamePaths(n.state.current.value, s.current.value)
  {
    FinishHunkPaths(s);
    FinishHunkPaths(Settle(s, line));
    hide FinishHunk, ApplyHeader, Lossy, WithoutReturn, StartHunk, PushRow, NamesOther, UnifiedFile, Closed, Complete, FinishFileBuilder;
  }

  // After the first hunk began, quiet lines leave the paths alone.
  lemma {:induction false} LateStep(raw: seq<Byte>, s: State, line: Line, next: Option<Line>)
    requires s.current.Some? && !(DIFF_GIT <= Header(line)) && QuietAt(Settle(s, line), Header(line)) && PlainStatus(s.current.value.status)
    requires s.hunk.Some? || s.current.value.hunks != [] || AT <= Header(line)
    ensures var n := Step(raw, s, line, next, UNLIMITED);
            && n.Next? && n.consumed == 1 && n.state.current.Some? && n.state.files == s.files
            && n.state.current.value.oldPath == s.current.value.oldPath && n.state.current.value.newPath == s.current.value.newPath
            && PlainStatus(n.state.current.value.status)
            && n.state.current.value.status == StatusAt(Settle(s, line), Header(line), s.current.value.status)
            && (n.state.hunk.Some? || n.state.current.value.hunks != [])
  {
    QuietStep(raw, s, line, next);
    FinishHunkPaths(s);
    var t := Settle(s, line);
    if HeaderPosition(t, Header(line)) {
      KeepsPaths(t.current.value, Header(line));
      ApplyHeaderKeeps(t.current.value, Lossy(Header(line)));
    }
    hide FinishHunk, ApplyHeader, Lossy, WithoutReturn, StartHunk, PushRow, NamesOther, UnifiedFile, Closed, Complete, BinaryMarker;
  }

  // ---- runs ----

  predicate NoFileLine(lines: seq<Line>) {
    forall k :: 0 <= k < |lines| ==> !(DIFF_GIT <= Header(lines[k]))
  }

  lemma {:induction false} QuietAtView(s: State, line: Line)
    requires QuietAt(Settle(View(s), Alone(line.bytes)), WithoutReturn(line.bytes))
    ensures QuietAt(Settle(s, line), Header(line))
  {
    ViewSettle(s, line.bytes, line);
    var t := Settle(s, line);
    if t.current.Some? { ViewHunksTwice(t.current.value.hunks); }
    hide Settle, WithoutReturn, QuietLine, ViewHunks, ViewFiles, ViewRows;
  }

  predicate Ended(s: State, t: State, status: FileStatus) {
    && t.files == s.files && s.current.Some? && t.current.Some? && PlainStatus(t.current.value.status)
    && t.current.value.oldPath == s.current.value.oldPath && t.current.value.newPath == s.current.value.newPath
    && t.current.value.status == status
  }

  lemma {:induction false} ViewedStatus(t: State, header: seq<Byte>, status: FileStatus)
    ensures StatusAt(View(t), header, status) == StatusAt(t, header, status)
  {
    hide StatusAfter, ViewHunks, ViewFiles, ViewRows;
    if t.current.Some? { ViewHunksTwice(t.current.value.hunks); }
  }

  lemma {:induction false} StatusView(s: State, line: Line, status: FileStatus)
    ensures StatusAt(Settle(View(s), Alone(line.bytes)), WithoutReturn(line.bytes), status) == StatusAt(Settle(s, line), Header(line), status)
  {
    hide Settle, WithoutReturn, StatusAt, View;
    ViewSettle(s, line.bytes, line);
    ViewedStatus(Settle(s, line), Header(line), status);
  }

  lemma {:induction false} LateRun(raw: seq<Byte>, s: State, lines: seq<Line>)
    requires AllInPatch(raw, lines) && NoFileLine(lines) && Quiet(View(s), Contents(lines))
    requires s.current.Some? && PlainStatus(s.current.value.status)
    requires s.hunk.Some? || s.current.value.hunks != [] || lines == [] || AT <= Header(lines[0])
    ensures Run(raw, s, lines, UNLIMITED).Ok?
    ensures Ended(s, Run(raw, s, lines, UNLIMITED).value, FinalStatus(View(s), Contents(lines), s.current.value.status))
    decreases |lines|
  {
    hide Step, StepContents, View, Header, Settle, QuietAt, StatusAt, InPatch, WithoutReturn;
    if lines == [] {
      assert Contents(lines) == [];
    } else {
      hide Contents;
      ContentsTail(lines);
      var next := Peek(lines[1..]);
      HeaderIs(lines[0]);
      QuietAtView(s, lines[0]);
      StatusView(s, lines[0], s.current.value.status);
      LateStep(raw, s, lines[0], next);
      var n := Step(raw, s, lines[0], next, UNLIMITED);
      StepContentsView(raw, s, lines[0], next, UNLIMITED);
      TailInPatch(raw, lines);
      LateRun(raw, n.state, lines[1..]);
    }
  }

  lemma {:induction false} HeaderIs(line: Line)
    ensures Header(line) == WithoutReturn(line.bytes)
  {
  }

  predicate Named(s: State, path: seq<Byte>, oldNull: bool, newNull: bool, status: FileStatus) {
    && s.current.Some? && s.current.value.status == status && PlainStatus(status)
    && s.current.value.oldPath == SideOf(oldNull, path) && s.current.value.newPath == SideOf(newNull, path)
  }

  // The first line of a body that is no hunk header: what the parser does with it.
  lemma {:induction false} EarlyStep(raw: seq<Byte>, s: State, line: Line, next: Option<Line>)
    requires InPatch(raw, line) && |raw| <= ISIZE_MAX && PreHunk(View(s)) && !(DIFF_GIT <= Header(line)) && !(AT <= Header(line)) && !NamesOther(Header(line))
    ensures var n := Step(raw, s, line, next, UNLIMITED);
            && n.Next? && n.consumed == 1 && n.state.current.Some? && n.state.files == s.files
            && s.current.Some? && SamePaths(n.state.current.value, ApplyHeader(s.current.value, Lossy(Header(line))))
            && View(s).current.Some? && View(n.state) == Marked(View(s), Header(line)) && PreHunk(View(n.state))
  {
    NoHunks(s);
    HeaderIs(line);
    QuietStep(raw, s, line, next);
    StepContentsView(raw, s, line, next, UNLIMITED);
    HeaderStep(View(s), line.bytes, if next.Some? then Some(next.value.bytes) else None);
    hide Step, StepContents, View, Header, ApplyHeader, Lossy, NamesOther, PreHunk, BinaryMarker, StartsUnified;
  }

  lemma {:induction false} NoHunks(s: State)
    requires PreHunk(View(s))
    ensures s.current.Some? && s.hunk.None? && s.current.value.hunks == [] && View(s).current.Some?
  {
    if s.current.Some? { ViewHunksTwice(s.current.value.hunks); }
    hide ViewFiles, ViewHunks, ViewRows;
  }

  // What quietness of the original body gives at its first line.
  lemma {:induction false} QuietFirst(v: State, x: seq<Byte>, rest: seq<seq<Byte>>)
    requires PreHunk(v) && Quiet(v, PieceContents([x] + rest)) && !(DIFF_GIT <= HeaderOf(x)) && !(AT <= HeaderOf(x))
    ensures !NamesOther(HeaderOf(x)) && v.current.Some? && Quiet(Marked(v, HeaderOf(x)), PieceContents(rest))
  {
    hide StepContents, LineParts, Content, WithoutReturn, Lossy, BinaryMarker, NamesOther, PieceContents, ViewFiles, ViewHunks, ViewRows;
    PieceStarts(x);
    ContentsCons(x, rest);
    var cs := PieceContents([x] + rest);
    assert cs[1..] == PieceContents(rest);
    HeaderStep(v, Content(x), Head(cs[1..]));
  }

  // ... and what the status becomes at it.
  lemma {:induction false} StatusFirst(v: State, x: seq<Byte>, rest: seq<seq<Byte>>, status: FileStatus)
    requires PreHunk(v) && !(DIFF_GIT <= HeaderOf(x)) && !(AT <= HeaderOf(x))
    ensures v.current.Some?
    ensures FinalStatus(v, PieceContents([x] + rest), status) ==
            FinalStatus(Marked(v, HeaderOf(x)), PieceContents(rest), StatusAfter(status, HeaderOf(x), true))
  {
    hide StepContents, LineParts, Content, WithoutReturn, Lossy, BinaryMarker, PieceContents, StatusAfter, ViewFiles, ViewHunks, ViewRows;
    PieceStarts(x);
    ContentsCons(x, rest);
    var cs := PieceContents([x] + rest);
    assert cs[1..] == PieceContents(rest);
    HeaderStep(v, Content(x), Head(cs[1..]));
  }

  lemma {:induction false} LinesOfCons(lines: seq<Line>, x: seq<Byte>, ps: seq<seq<Byte>>)
    requires Contents(lines) == PieceContents([x] + ps)
    ensures lines != [] && lines[0].bytes == Content(x) && Contents(lines[1..]) == PieceContents(ps)
    ensures Header(lines[0]) == HeaderOf(x)
  {
    hide Content, LineParts, WithoutReturn;
    ContentsCons(x, ps);
    ContentsTail(lines);
    PieceStarts(x);
    HeaderIs(lines[0]);
    assert ([Content(x)] + PieceContents(ps))[1..] == PieceContents(ps);
  }

  lemma {:induction false} LinesOfBody(lines: seq<Line>, body: seq<seq<Byte>>)
    requires Contents(lines) == PieceContents(body) && NoStart(body)
    ensures NoFileLine(lines) && (body != [] ==> lines != [] && Header(lines[0]) == HeaderOf(body[0])) && (body == [] ==> lines == [])
    decreases |body|
  {
    hide Content, LineParts;
    if body != [] {
      assert body == [body[0]] + body[1..];
      LinesOfCons(lines, body[0], body[1..]);
      LinesOfBody(lines[1..], body[1..]);
      forall k | 0 <= k < |lines| ensures !(DIFF_GIT <= Header(lines[k])) {
        if k > 0 { assert lines[k] == lines[1..][k - 1]; }
      }
    }
  }

  predicate EndsNamed(r: Result<State, Exceeded>, s: State, path: seq<Byte>, oldNull: bool, newNull: bool, status: FileStatus) {
    r.Ok? && r.value.files == s.files && Named(r.value, path, oldNull, newNull, status)
  }

  lemma {:induction false} AtFirst(raw: seq<Byte>, s: State, lines: seq<Line>, body: seq<seq<Byte>>, path: seq<Byte>,
                                   oldNull: bool, newNull: bool, status: FileStatus)
    requires AllInPatch(raw, lines) && Contents(lines) == PieceContents(body) && NoStart(body)
    requires Quiet(View(s), PieceContents(body)) && Named(s, path, oldNull, newNull, status)
    requires body == [] || AT <= HeaderOf(body[0])
    ensures EndsNamed(Run(raw, s, lines, UNLIMITED), s, path, oldNull, newNull, FinalStatus(View(s), PieceContents(body), status))
  {
    hide Run, Quiet, FinalStatus, View, Contents, PieceContents, LineParts, Header;
    LinesOfBody(lines, body);
    LateRun(raw, s, lines);
  }

  // Running over one line more.
  lemma {:induction false} RunTail(raw: seq<Byte>, s: State, lines: seq<Line>)
    requires lines != [] && Step(raw, s, lines[0], Peek(lines[1..]), UNLIMITED).Next? && Step(raw, s, lines[0], Peek(lines[1..]), UNLIMITED).consumed == 1
    ensures Run(raw, s, lines, UNLIMITED) == Run(raw, Step(raw, s, lines[0], Peek(lines[1..]), UNLIMITED).state, lines[1..], UNLIMITED)
  {
    hide Step;
  }

  lemma {:induction false} EarlyRun(raw: seq<Byte>, s: State, lines: seq<Line>, body: seq<seq<Byte>>, path: seq<Byte>,
                                    oldNull: bool, newNull: bool, status: FileStatus)
    requires ValidUtf8(path) && AllInPatch(raw, lines) && Contents(lines) == PieceContents(NewBody(false, body, path)) && NoStart(body)
    requires PreHunk(View(s)) && Quiet(View(s), PieceContents(body)) && Named(s, path, oldNull, newNull, status)
    ensures EndsNamed(Run(raw, s, lines, UNLIMITED), s, path, LastNull(MINUS, body, oldNull), LastNull(PLUS, body, newNull),
                      FinalStatus(View(s), PieceContents(body), status))
    decreases |body|
  {
    hide Run, Step, Quiet, FinalStatus, View, Contents, PieceContents, LineParts, Header, NewHeader, TempMode, BinaryMarker, Lossy, ApplyHeader, PreHunk;
    hide LineSafe, NamesOther, ValidUtf8, InPatch, EndsNamed, StatusAfter;
    if body == [] {
      AtFirst(raw, s, lines, body, path, oldNull, newNull, status);
    } else {
      var x, rest := body[0], body[1..];
      var header, ending := LineParts(x).0, LineParts(x).1;
      assert body == [x] + rest;
      if AT <= header {
        AtIsKept(header, path);
        BodyVerbatim(rest, path);
        AtFirst(raw, s, lines, body, path, oldNull, newNull, status);
      } else {
        QuietFirst(View(s), x, rest);
        StatusFirst(View(s), x, rest, status);
        var more := NewBody(false, rest, path);
        if TempMode(header) {
          PrefixKinds(header);
          NotMarked(View(s), header);
          TempIsNoSide(header);
          TempKeepsStatus(status, header);
          EarlyRun(raw, s, lines, rest, path, oldNull, newNull, status);
        } else {
          var o := if MINUS <= header then header[|MINUS|..] == DEV_NULL else oldNull;
          var n := if PLUS <= header then header[|PLUS|..] == DEV_NULL else newNull;
          EarlyLine(raw, s, lines, x, more, path, oldNull, newNull, status);
          RunTail(raw, s, lines);
          TailInPatch(raw, lines);
          var t := Step(raw, s, lines[0], Peek(lines[1..]), UNLIMITED).state;
          EarlyRun(raw, t, lines[1..], rest, path, o, n, StatusAfter(status, header, true));
          NamedFrom(Run(raw, s, lines, UNLIMITED), s, t, path, LastNull(MINUS, rest, o), LastNull(PLUS, rest, n),
                    FinalStatus(View(s), PieceContents(body), status));
        }
      }
    }
  }

  lemma {:induction false} TempKeepsStatus(status: FileStatus, header: seq<Byte>)
    requires TempMode(header)
    ensures StatusAfter(status, header, true) == status
  {
    assert OLD_MODE[0] == 111 && NEW_MODE[0] == 110 && NEW_MODE[4] == 109 && NEW_FILE[0] == 110 && NEW_FILE[4] == 102 && DELETED_FILE[0] == 100;
  }

  // The line a body line becomes, and where it leaves the parser.
  lemma {:induction false} EarlyLine(raw: seq<Byte>, s: State, lines: seq<Line>, x: seq<Byte>, more: seq<seq<Byte>>, path: seq<Byte>,
                                     oldNull: bool, newNull: bool, status: FileStatus)
    requires ValidUtf8(path) && AllInPatch(raw, lines) && PreHunk(View(s)) && Named(s, path, oldNull, newNull, status)
    requires var header := HeaderOf(x); !(DIFF_GIT <= header) && !(AT <= header) && !NamesOther(header) && !TempMode(header)
    requires Contents(lines) ==
             PieceContents([if NewHeader(HeaderOf(x), path).Some? then NewHeader(HeaderOf(x), path).value + LineParts(x).1 else x] + more)
    ensures lines != [] && Contents(lines[1..]) == PieceContents(more) && View(s).current.Some?
    ensures var n := Step(raw, s, lines[0], Peek(lines[1..]), UNLIMITED);
            && n.Next? && n.consumed == 1 && n.state.files == s.files
            && View(n.state) == Marked(View(s), HeaderOf(x)) && PreHunk(View(n.state))
            && Named(n.state, path, if MINUS <= HeaderOf(x) then HeaderOf(x)[|MINUS|..] == DEV_NULL else oldNull,
                     if PLUS <= HeaderOf(x) then HeaderOf(x)[|PLUS|..] == DEV_NULL else newNull, StatusAfter(status, HeaderOf(x), true))
  {
    hide Run, Step, View, Contents, PieceContents, LineParts, Header, NewHeader, BinaryMarker, Lossy, ApplyHeader, PreHunk;
    hide LineSafe, NamesOther, ValidUtf8, InPatch, StatusAfter, TempMode;
    var header := HeaderOf(x);
    HasFile(View(s));
    if NewHeader(header, path).Some? {
      var h := NewHeader(header, path).value;
      NewHeaderKind(header, path);
      PartsOf(h, x);
      LinesOfCons(lines, h + LineParts(x).1, more);
      NewNamesNothing(header, path);
      SameMark(View(s), h, header);
      EarlyStep(raw, s, lines[0], Peek(lines[1..]));
      NewHeaderNames(s.current.value, header, path, oldNull, newNull);
    } else {
      LinesOfCons(lines, x, more);
      OldNamesNothing(header, path);
      EarlyStep(raw, s, lines[0], Peek(lines[1..]));
      KeepsPaths(s.current.value, header);
      SameEarlyAndLate(status, header);
    }
  }

  lemma {:induction false} SameEarlyAndLate(status: FileStatus, header: seq<Byte>)
    requires !TempMode(header) && !(MINUS <= header) && !(PLUS <= header)
    ensures StatusAfter(status, header, true) == StatusAfter(status, header, false)
  {
  }

  lemma {:induction false} NamedFrom(r: Result<State, Exceeded>, s: State, t: State, path: seq<Byte>, oldNull: bool, newNull: bool, status: FileStatus)
    requires EndsNamed(r, t, path, oldNull, newNull, status) && t.files == s.files
    ensures EndsNamed(r, s, path, oldNull, newNull, status)
  {
    hide Named;
  }

  lemma {:induction false} TempIsNoSide(header: seq<Byte>)
    requires TempMode(header)
    ensures !(MINUS <= header) && !(PLUS <= header)
  {
    assert MINUS[0] == 45 && PLUS[0] == 43 && OLD_MODE[0] == 111 && NEW_MODE[0] == 110;
  }

  lemma {:induction false} OldNamesNothing(header: seq<Byte>, path: seq<Byte>)
    requires NewHeader(header, path).None?
    ensures !(MINUS <= header) && !(PLUS <= header)
  {
    hide PatchPath, EndsWith;
  }

  lemma {:induction false} NewNamesNothing(header: seq<Byte>, path: seq<Byte>)
    requires NewHeader(header, path).Some?
    ensures !NamesOther(NewHeader(header, path).value)
  {
    NewHeaderPrefix(header, path);
    hide NewHeader;
    assert MINUS[0] == 45 && PLUS[0] == 43 && BINARY_FILES[0] == 66 && RENAME_FROM[0] == RENAME_TO[0] == 114 && COPY_FROM[0] == COPY_TO[0] == 99;
  }

  // ---- the theorem ----

  // Which side a change shows, given its status and which sides are null.
  predicate ShowsOld(status: FileStatus, oldNull: bool, newNull: bool) {
    if status == Added then !oldNull && newNull else if status == Deleted then !oldNull else !oldNull || !newNull
  }

  predicate ShowsNew(status: FileStatus, oldNull: bool, newNull: bool) {
    if status == Deleted then oldNull && !newNull else if status == Added then !newNull else !oldNull || !newNull
  }

  lemma {:induction false} ChangeShows(status: FileStatus, oldNull: bool, newNull: bool, path: seq<Byte>)
    requires PlainStatus(status)
    ensures var c := ChangeOf(status, SideOf(oldNull, path), SideOf(newNull, path));
            && OldPath(c) == SideOf(!ShowsOld(status, oldNull, newNull), path)
            && NewPath(c) == SideOf(!ShowsNew(status, oldNull, newNull), path)
            && (c == ModifiedFile(path, path) <==> status == Modified && !(oldNull && newNull))
  {
  }

  // A patch of one section that says something, without rename or copy headers and with
  // no side named again after a hunk, parses after rewriting to one file.  Its status is
  // what the header lines lead to, its paths are the display path, whatever characters
  // that has, and a side is there exactly when that status and the null sides show it.
  lemma {:induction false} RewrittenFileHasDisplayPath(patch: seq<Byte>, path: seq<Byte>, first: seq<Byte>, body: seq<seq<Byte>>)
    requires ValidUtf8(path) && |Rewrite(patch, path)| <= ISIZE_MAX
    requires Pieces(patch) == [first] + body && StartsPiece(first) && NoStart(body) && Says(false, body)
    requires Quiet(Begun([]), PieceContents(body))
    ensures var r := ParseRange(Rewrite(patch, path), 0, |Rewrite(patch, path)|, UNLIMITED);
            var status := FinalStatus(Begun([]), PieceContents(body), Modified);
            var oldNull, newNull := LastNull(MINUS, body, false), LastNull(PLUS, body, false);
            && r.Ok? && |r.value| == 1 && PlainStatus(status)
            && r.value[0].change == ChangeOf(status, SideOf(oldNull, path), SideOf(newNull, path))
            && OldPath(r.value[0].change) == SideOf(!ShowsOld(status, oldNull, newNull), path)
            && NewPath(r.value[0].change) == SideOf(!ShowsNew(status, oldNull, newNull), path)
  {
    hide Pieces, Rewrite, NewBody, Says, StartsPiece, Quiet, FinalStatus, Lines, Run, View, Contents, PieceContents, LineParts, Sides, ValidUtf8, ParsedLimits;
    hide NoStart, InPatch, LastNull, ShowsOld, ShowsNew, OldPath, NewPath, Closed, NewSect, PreHunk, DiffGitPaths, PlainStatus, ChangeOf;
    var raw := Rewrite(patch, path);
    var lines := Lines(raw, 0, |raw|);
    var h := DIFF_GIT + Sides(path) + LineParts(first).1;
    ParseIsOk(raw);
    LinesInPatch(raw, 0, |raw|);
    RewrittenSection(patch, path, first, body);
    PiecesAreLines(raw, 0);
    assert raw[0..] == raw;
    LinesOfCons(lines, h, NewBody(false, body, path));
    FirstLine(raw, lines, path, first);
    TailInPatch(raw, lines);
    var s := Step(raw, START, lines[0], Peek(lines[1..]), UNLIMITED).state;
    var status := FinalStatus(Begun([]), PieceContents(body), Modified);
    EarlyRun(raw, s, lines[1..], body, path, false, false, Modified);
    OneFile(Run(raw, START, lines, UNLIMITED).value, path, LastNull(MINUS, body, false), LastNull(PLUS, body, false), status);
    ChangeShows(status, LastNull(MINUS, body, false), LastNull(PLUS, body, false), path);
  }

  lemma {:induction false} TailInPatch(raw: seq<Byte>, lines: seq<Line>)
    requires AllInPatch(raw, lines) && lines != []
    ensures AllInPatch(raw, lines[1..])
  {
    hide InPatch;
  }

  // The rewritten patch is the new first line and the new body.
  lemma {:induction false} RewrittenSection(patch: seq<Byte>, path: seq<Byte>, first: seq<Byte>, body: seq<seq<Byte>>)
    requires Pieces(patch) == [first] + body && StartsPiece(first) && NoStart(body) && Says(false, body)
    ensures Pieces(Rewrite(patch, path)) == [DIFF_GIT + Sides(path) + LineParts(first).1] + NewBody(false, body, path)
  {
    hide Pieces, Rewrite, NewBody, Says, StartsPiece, NoStart, Sides, LineParts;
    RewrittenPieces(patch, path);
    assert [first] + body == [first] + (body + []);
    RestOfSections(first, body, [], path);
    NewSectIs(first, path);
    var out := SectionOut(first, body, path);
    assert out + Rest(None, [], path) == out;
  }

  predicate FileHeader(header: seq<Byte>, path: seq<Byte>) {
    DIFF_GIT <= header && DiffGitPaths(Lossy(header)) == (Some(path), Some(path))
  }

  lemma {:induction false} NewFirstHeader(path: seq<Byte>, first: seq<Byte>)
    requires ValidUtf8(path)
    ensures FileHeader(HeaderOf(DIFF_GIT + Sides(path) + LineParts(first).1), path)
  {
    hide Sides, LineParts, DiffGitPaths, Lossy, ValidUtf8, LineSafe;
    SafeHeaders(path);
    PartsOf(DIFF_GIT + Sides(path), first);
    AfterPrefix(DIFF_GIT, Sides(path));
    SafeLine(DIFF_GIT + Sides(path));
    DiffGitPathsBack(path);
  }

  lemma {:induction false} OpensFile(raw: seq<Byte>, line: Line, next: Option<Line>, path: seq<Byte>)
    requires FileHeader(Header(line), path)
    ensures var n := Step(raw, START, line, next, UNLIMITED);
            && n.Next? && n.consumed == 1 && n.state.files == [] && Named(n.state, path, false, false, Modified) && View(n.state) == Begun([])
  {
    hide Header, DiffGitPaths, Lossy;
    assert Closed(START) == START;
    assert ViewHunks([]) == [] && ViewFiles([]) == [];
  }

  // After the new first line both sides carry the display path.
  lemma {:induction false} FirstLine(raw: seq<Byte>, lines: seq<Line>, path: seq<Byte>, first: seq<Byte>)
    requires ValidUtf8(path) && lines != [] && Header(lines[0]) == HeaderOf(DIFF_GIT + Sides(path) + LineParts(first).1)
    ensures var n := Step(raw, START, lines[0], Peek(lines[1..]), UNLIMITED);
            && n.Next? && n.consumed == 1 && n.state.files == [] && Named(n.state, path, false, false, Modified)
            && View(n.state) == Begun([]) && PreHunk(Begun([]))
            && Run(raw, START, lines, UNLIMITED) == Run(raw, n.state, lines[1..], UNLIMITED)
  {
    hide Sides, LineParts, Header, DiffGitPaths, Lossy, ValidUtf8, PreHunk, FileHeader, Step, Run, View, Named;
    NewFirstHeader(path, first);
    OpensFile(raw, lines[0], Peek(lines[1..]), path);
    BegunIsPreHunk();
    RunTail(raw, START, lines);
  }

  lemma {:induction false} OneFile(s: State, path: seq<Byte>, oldNull: bool, newNull: bool, status: FileStatus)
    requires Named(s, path, oldNull, newNull, status) && s.files == []
    ensures |Closed(s).files| == 1 && PlainStatus(status)
    ensures Closed(s).files[0].change == ChangeOf(status, SideOf(oldNull, path), SideOf(newNull, path))
  {
    hide ChangeOf;
    FinishHunkPaths(s);
  }

  // ---- an ordinary modified file ----

  // No header line of the body gives the file another status.
  predicate Unmarked(v: State, cs: seq<seq<Byte>>)
    decreases |cs|
  {
    cs == [] ||
      (StatusAt(Settle(v, Alone(cs[0])), WithoutReturn(cs[0]), Modified) == Modified
       && Unmarked(StepContents(v, cs[0], Head(cs[1..])).0, cs[1..]))
  }

  // A status that was left is never taken again.
  lemma {:induction false} StaysMarked(v: State, cs: seq<seq<Byte>>, status: FileStatus)
    requires status != Modified
    ensures FinalStatus(v, cs, status) != Modified
    decreases |cs|
  {
    hide StepContents, Settle, TempMode;
    if cs != [] {
      StaysMarked(StepContents(v, cs[0], Head(cs[1..])).0, cs[1..], StatusAt(Settle(v, Alone(cs[0])), WithoutReturn(cs[0]), status));
    }
  }

  lemma {:induction false} UnmarkedIs(v: State, cs: seq<seq<Byte>>)
    ensures Unmarked(v, cs) <==> FinalStatus(v, cs, Modified) == Modified
    decreases |cs|
  {
    hide StepContents, Settle, StatusAt;
    if cs != [] {
      var t := StepContents(v, cs[0], Head(cs[1..])).0;
      var status := StatusAt(Settle(v, Alone(cs[0])), WithoutReturn(cs[0]), Modified);
      if status == Modified { UnmarkedIs(t, cs[1..]); } else { StaysMarked(t, cs[1..], status); }
    }
  }

  // A null side marks the file.
  lemma {:induction false} NullMarks(v: State, body: seq<seq<Byte>>, last: bool, status: FileStatus)
    requires PreHunk(v) && NoStart(body) && LastNull(MINUS, body, last) && (last ==> status != Modified)
    ensures FinalStatus(v, PieceContents(body), status) != Modified
    decreases |body|
  {
    hide PreHunk, LineParts, FinalStatus, PieceContents, BinaryMarker, Lossy;
    if body == [] || AT <= HeaderOf(body[0]) {
      StaysMarked(v, PieceContents(body), status);
    } else {
      var x, rest := body[0], body[1..];
      var header := HeaderOf(x);
      assert body == [x] + rest;
      StatusFirst(v, x, rest, status);
      HeaderMarks(v, header);
      SideStatus(status, header);
      if status != Modified { StaysOther(status, header); }
      hide StatusAfter;
      NullMarks(Marked(v, header), rest, if MINUS <= header then header[|MINUS|..] == DEV_NULL else last, StatusAfter(status, header, true));
    }
  }

  lemma {:induction false} HeaderMarks(v: State, header: seq<Byte>)
    requires PreHunk(v)
    ensures v.current.Some? && PreHunk(Marked(v, header))
  {
    hide ViewFiles, ViewHunks, ViewRows, BinaryMarker, Lossy;
  }

  lemma {:induction false} StaysOther(status: FileStatus, header: seq<Byte>)
    requires status != Modified
    ensures StatusAfter(status, header, true) != Modified
  {
    hide TempMode;
  }

  // The rewritten section parses to a modified file with the display path on both sides
  // exactly when no header line marks it as anything else.
  lemma {:induction false} RewrittenFileIsModified(patch: seq<Byte>, path: seq<Byte>, first: seq<Byte>, body: seq<seq<Byte>>)
    requires ValidUtf8(path) && |Rewrite(patch, path)| <= ISIZE_MAX
    requires Pieces(patch) == [first] + body && StartsPiece(first) && NoStart(body) && Says(false, body)
    requires Quiet(Begun([]), PieceContents(body))
    ensures var r := ParseRange(Rewrite(patch, path), 0, |Rewrite(patch, path)|, UNLIMITED);
            r.Ok? && |r.value| == 1 && (r.value[0].change == ModifiedFile(path, path) <==> Unmarked(Begun([]), PieceContents(body)))
  {
    hide Pieces, Rewrite, Says, StartsPiece, NoStart, Quiet, FinalStatus, PieceContents, ValidUtf8, ParseRange, LastNull, PreHunk;
    hide ChangeOf, OldPath, NewPath, Unmarked, PlainStatus;
    RewrittenFileHasDisplayPath(patch, path, first, body);
    var oldNull, newNull := LastNull(MINUS, body, false), LastNull(PLUS, body, false);
    ChangeShows(FinalStatus(Begun([]), PieceContents(body), Modified), oldNull, newNull, path);
    UnmarkedIs(Begun([]), PieceContents(body));
    BegunIsPreHunk();
    if oldNull { NullMarks(Begun([]), body, false, Modified); }
  }

  // ---- the null side in other spellings ----

  // The parser takes this side for null.
  predicate ReadsNull(prefix: seq<Byte>, header: seq<Byte>) {
    prefix <= Lossy(header) && UnifiedPath(Lossy(header)[|prefix|..]) == DEV_NULL
  }

  lemma {:induction false} NullBytes()
    ensures |DEV_NULL| == 9 && DEV_NULL[0] == 47 && TAB !in DEV_NULL
    ensures Plain(DEV_NULL) && Ascii(DEV_NULL) && LineSafe(DEV_NULL)
  {
  }

  lemma {:induction false} NullLine(prefix: seq<Byte>)
    requires prefix == MINUS || prefix == PLUS
    ensures ReadsNull(prefix, prefix + DEV_NULL)
  {
    NullBytes();
    SafePrefixes();
    hide Lossy, LineSafe, Plain, Ascii, UpTo;
    SafeConcat(prefix, DEV_NULL);
    SafeLine(prefix + DEV_NULL);
    AfterPrefix(prefix, DEV_NULL);
    UpToAll(DEV_NULL, TAB);
    assert QuotedToken(DEV_NULL).None?;
  }

  lemma {:induction false} SideIsNotNull(path: seq<Byte>)
    ensures A_SIDE + path != DEV_NULL && B_SIDE + path != DEV_NULL
  {
    assert (A_SIDE + path)[0] == 97 && (B_SIDE + path)[0] == 98 && DEV_NULL[0] == 47;
  }

  lemma {:induction false} SideLineReads(prefix: seq<Byte>, side: seq<Byte>, path: seq<Byte>)
    requires ValidUtf8(path) && ((prefix == MINUS && side == A_SIDE) || (prefix == PLUS && side == B_SIDE))
    ensures !ReadsNull(prefix, prefix + PatchPath(side, path))
  {
    hide Lossy, LineSafe, Quote, UnifiedPath, ValidUtf8, Plain;
    SidesOf(path);
    SafeHeaders(path);
    SafeLine(prefix + PatchPath(side, path));
    AfterPrefix(prefix, PatchPath(side, path));
    UnifiedPathBack(side + path);
    SideIsNotNull(path);
  }

  // A side header that the parser reads as null stays null after rewriting exactly when
  // the bytes after its prefix are /dev/null; any other spelling gets the display path.
  lemma {:induction false} NullStaysNull(prefix: seq<Byte>, header: seq<Byte>, path: seq<Byte>)
    requires ValidUtf8(path) && (prefix == MINUS || prefix == PLUS) && prefix <= header
    ensures NewHeader(header, path).Some?
    ensures ReadsNull(prefix, NewHeader(header, path).value) <==> header[|prefix|..] == DEV_NULL
    ensures header[|prefix|..] == DEV_NULL ==> ReadsNull(prefix, header)
  {
    hide ReadsNull, PatchPath, ValidUtf8;
    assert MINUS[0] == 45 && PLUS[0] == 43;
    NullLine(prefix);
    SideLineReads(prefix, if prefix == MINUS then A_SIDE else B_SIDE, path);
    if header[|prefix|..] == DEV_NULL { assert header == prefix + DEV_NULL; }
  }

  lemma {:induction false} PlainQuoteBytes(p: seq<Byte>)
    requires Plain(p)
    ensures QuoteBytes(p) == p
    decreases |p|
  {
    if p != [] {
      PlainQuoteBytes(p[..|p| - 1]);
      assert p[..|p| - 1] + [p[|p| - 1]] == p;
    }
  }

  // Quoted, or followed by a tab and anything: the parser reads null, the rewriter does not.
  lemma {:induction false} OtherNullSpellings(prefix: seq<Byte>, tail: seq<Byte>, path: seq<Byte>)
    requires ValidUtf8(path) && (prefix == MINUS || prefix == PLUS) && Ascii(tail)
    ensures var quoted, tabbed := prefix + ([QUOTE] + DEV_NULL + [QUOTE] + tail), prefix + (DEV_NULL + [TAB] + tail);
            && ReadsNull(prefix, quoted) && NewHeader(quoted, path).Some? && !ReadsNull(prefix, NewHeader(quoted, path).value)
            && ReadsNull(prefix, tabbed) && NewHeader(tabbed, path).Some? && !ReadsNull(prefix, NewHeader(tabbed, path).value)
  {
    var a, b := [QUOTE] + DEV_NULL + [QUOTE] + tail, DEV_NULL + [TAB] + tail;
    QuotedNull(tail);
    TabbedNull(tail);
    AsciiSpellings(tail);
    OtherSpelling(prefix, a, path);
    OtherSpelling(prefix, b, path);
    hide ReadsNull, NewHeader, ValidUtf8, UnifiedPath, Ascii;
  }

  lemma {:induction false} AsciiSpellings(tail: seq<Byte>)
    requires Ascii(tail)
    ensures Ascii([QUOTE] + DEV_NULL + [QUOTE] + tail) && Ascii(DEV_NULL + [TAB] + tail)
    ensures |[QUOTE] + DEV_NULL + [QUOTE] + tail| != |DEV_NULL| && |DEV_NULL + [TAB] + tail| != |DEV_NULL|
  {
    NullBytes();
    AsciiAround([QUOTE], DEV_NULL, [QUOTE], tail);
    AsciiAround([], DEV_NULL, [TAB], tail);
    assert [] + DEV_NULL == DEV_NULL;
    hide Ascii, Plain, LineSafe;
  }

  lemma {:induction false} AsciiAround(a: seq<Byte>, b: seq<Byte>, c: seq<Byte>, d: seq<Byte>)
    requires Ascii(a) && Ascii(b) && Ascii(c) && Ascii(d)
    ensures Ascii(a + b + c + d)
  {
  }

  lemma {:induction false} OtherSpelling(prefix: seq<Byte>, side: seq<Byte>, path: seq<Byte>)
    requires ValidUtf8(path) && (prefix == MINUS || prefix == PLUS) && Ascii(side) && UnifiedPath(side) == DEV_NULL && |side| != |DEV_NULL|
    ensures var header := prefix + side;
            ReadsNull(prefix, header) && NewHeader(header, path).Some? && !ReadsNull(prefix, NewHeader(header, path).value)
  {
    hide Lossy, UnifiedPath, NewHeader, ValidUtf8, Ascii;
    AfterPrefix(prefix, side);
    NullStaysNull(prefix, prefix + side, path);
    AsciiSides(prefix, side);
  }

  lemma {:induction false} AsciiSides(prefix: seq<Byte>, s: seq<Byte>)
    requires (prefix == MINUS || prefix == PLUS) && Ascii(s)
    ensures Lossy(prefix + s) == prefix + s
  {
    AsciiIsValid(prefix + s);
    hide ValidUtf8, Lossy;
    LossyKeepsValid(prefix + s);
  }

  lemma {:induction false} QuotedNull(tail: seq<Byte>)
    ensures UnifiedPath([QUOTE] + DEV_NULL + [QUOTE] + tail) == DEV_NULL
  {
    NullIsPlain();
    hide ValidUtf8, Lossy, Unescape, QuoteBytes, Plain, UpTo;
    PlainQuoteBytes(DEV_NULL);
    QuotedReads(DEV_NULL, tail);
  }

  lemma {:induction false} NullIsPlain()
    ensures Plain(DEV_NULL) && ValidUtf8(DEV_NULL)
  {
    hide ValidUtf8, Plain, Ascii, LineSafe;
    NullBytes();
    AsciiIsValid(DEV_NULL);
  }

  lemma {:induction false} QuotedReads(p: seq<Byte>, tail: seq<Byte>)
    requires ValidUtf8(p) && QuoteBytes(p) == p
    ensures UnifiedPath([QUOTE] + p + [QUOTE] + tail) == p
  {
    hide ValidUtf8, Lossy, Unescape, QuoteBytes, UpTo;
    var s := [QUOTE] + p + [QUOTE] + tail;
    assert s[1..] == QuotedRest(p, tail);
    UnescapeQuoted(s, 1, p, tail);
    LossyKeepsValid(p);
  }

  lemma {:induction false} TabbedNull(tail: seq<Byte>)
    ensures UnifiedPath(DEV_NULL + [TAB] + tail) == DEV_NULL
  {
    hide UpTo, Plain, Ascii, LineSafe;
    NullBytes();
    assert (DEV_NULL + [TAB] + tail)[0] == 47;
    UpToTab(DEV_NULL, tail);
  }

  lemma {:induction false} UpToTab(s: seq<Byte>, tail: seq<Byte>)
    requires TAB !in s
    ensures UpTo(s + [TAB] + tail, TAB) == s
    decreases |s|
  {
    var all := s + [TAB] + tail;
    if s == [] {
      assert all[0] == TAB;
    } else {
      assert all[0] == s[0] && all[1..] == s[1..] + [TAB] + tail;
      UpToTab(s[1..], tail);
      assert [s[0]] + s[1..] == s;
    }
  }
}

// Rewriting paths keeps what a patch means, loses only files that say nothing, and does
// nothing the second time.
module DifftoolMeaning {
  import opened Wrappers
  import opened Utf8
  import opened GitPaths
  import opened PatchModel
  import opened PatchPieces
  import opened PatchParser
  import opened HeaderLines
  import opened PathRoundTrip
  import opened PatchMeaning
  import opened Difftool

  // ---- one section at a time ----

  function HeaderOf(piece: seq<Byte>): seq<Byte> { LineParts(piece).0 }

  // What the lines after the `diff --git ` line become.
  function NewBody(inHunk: bool, pieces: seq<seq<Byte>>, path: seq<Byte>): seq<seq<Byte>>
    decreases |pieces|
  {
    if pieces == [] then []
    else
      var header, ending := LineParts(pieces[0]).0, LineParts(pieces[0]).1;
      if !inHunk && TempMode(header) then NewBody(inHunk, pieces[1..], path)
      else if !inHunk && NewHeader(header, path).Some? then
        [NewHeader(header, path).value + ending] + NewBody(inHunk, pieces[1..], path)
      else [pieces[0]] + NewBody(inHunk || AT <= header, pieces[1..], path)
  }

  // Whether they say anything.
  predicate Says(inHunk: bool, pieces: seq<seq<Byte>>)
    decreases |pieces|
  {
    if pieces == [] then false
    else
      var header := HeaderOf(pieces[0]);
      if !inHunk && TempMode(header) then Says(inHunk, pieces[1..])
      else
        || (!inHunk && NewHeader(header, []).Some?)
        || Substantial(header)
        || Says(inHunk || AT <= header, pieces[1..])
  }

  predicate NoStart(pieces: seq<seq<Byte>>) {
    forall k :: 0 <= k < |pieces| ==> !StartsPiece(pieces[k])
  }

  predicate FreshPieces(pieces: seq<seq<Byte>>) {
    pieces == [] || StartsPiece(pieces[0])
  }

  // A section's lines after rewriting, none when it says nothing.
  function SectionOut(first: seq<Byte>, body: seq<seq<Byte>>, path: seq<Byte>): seq<seq<Byte>> {
    if Says(false, body) then NewSect(first, path).lines + NewBody(false, body, path) else []
  }

  lemma {:induction false} HeaderPathFree(header: seq<Byte>, path: seq<Byte>)
    ensures NewHeader(header, path).Some? <==> NewHeader(header, []).Some?
  {
    hide PatchPath, EndsWith;
  }

  // The loop's way and the section's way agree.
  lemma {:induction false} RestOfSection(s: Sect, body: seq<seq<Byte>>, rest: seq<seq<Byte>>, path: seq<Byte>)
    requires NoStart(body) && FreshPieces(rest)
    ensures Rest(Some(s), body + rest, path) ==
            (if s.substantive || Says(s.inHunk, body) then s.lines + NewBody(s.inHunk, body, path) else []) + Rest(None, rest, path)
    decreases |body|
  {
    hide LineParts, NewHeader, TempMode, Substantial, NewSect, StartsPiece;
    if body == [] {
      FlushNow(s, rest, path);
      assert body + rest == rest && s.lines + [] == s.lines;
    } else {
      var all := body + rest;
      assert all[0] == body[0] && all[1..] == body[1..] + rest;
      HeaderPathFree(HeaderOf(body[0]), path);
      var t := AddLine(s, body[0], path);
      RestOfSection(t, body[1..], rest, path);
      AddIsBody(s, body, path);
    }
  }

  lemma {:induction false} FlushNow(s: Sect, rest: seq<seq<Byte>>, path: seq<Byte>)
    requires FreshPieces(rest)
    ensures Rest(Some(s), rest, path) == (if s.substantive then s.lines else []) + Rest(None, rest, path)
  {
    hide NewSect, StartsPiece;
    if rest != [] {
      var more := Rest(Some(NewSect(rest[0], path)), rest[1..], path);
      assert [] + more == more;
    } else {
      assert Flushed(Some(s)) + [] == Flushed(Some(s));
    }
  }

  lemma {:induction false} AddIsBody(s: Sect, body: seq<seq<Byte>>, path: seq<Byte>)
    requires body != []
    ensures var t := AddLine(s, body[0], path);
            && t.lines + NewBody(t.inHunk, body[1..], path) == s.lines + NewBody(s.inHunk, body, path)
            && (t.substantive || Says(t.inHunk, body[1..]) <==> s.substantive || Says(s.inHunk, body))
  {
    hide LineParts, NewHeader, TempMode, Substantial;
    HeaderPathFree(HeaderOf(body[0]), path);
  }

  lemma {:induction false} RestOfPreamble(pre: seq<seq<Byte>>, rest: seq<seq<Byte>>, path: seq<Byte>)
    requires NoStart(pre)
    ensures Rest(None, pre + rest, path) == pre + Rest(None, rest, path)
    decreases |pre|
  {
    hide StartsPiece;
    if pre == [] {
      assert pre + rest == rest && pre + Rest(None, rest, path) == Rest(None, rest, path);
    } else {
      var all := pre + rest;
      assert all[0] == pre[0] && all[1..] == pre[1..] + rest;
      RestOfPreamble(pre[1..], rest, path);
      assert [pre[0]] + (pre[1..] + Rest(None, rest, path)) == pre + Rest(None, rest, path);
    }
  }

  // One section and the sections after it.
  lemma {:induction false} RestOfSections(first: seq<Byte>, body: seq<seq<Byte>>, rest: seq<seq<Byte>>, path: seq<Byte>)
    requires StartsPiece(first) && NoStart(body) && FreshPieces(rest)
    ensures Rest(None, [first] + (body + rest), path) == SectionOut(first, body, path) + Rest(None, rest, path)
  {
    hide NewSect, StartsPiece, Says, NewBody;
    var all := [first] + (body + rest);
    assert all[0] == first && all[1..] == body + rest;
    var s := NewSect(first, path);
    NewSectIs(first, path);
    RestOfSection(s, body, rest, path);
    assert Flushed(None) + Rest(Some(s), body + rest, path) == Rest(Some(s), body + rest, path);
  }

  lemma {:induction false} NewSectIs(first: seq<Byte>, path: seq<Byte>)
    ensures var s := NewSect(first, path); s.lines == [DIFF_GIT + Sides(path) + LineParts(first).1] && !s.inHunk && !s.substantive
  {
  }

  // How many pieces come before the next section.
  function Until(pieces: seq<seq<Byte>>): (n: nat)
    ensures n <= |pieces| && NoStart(pieces[..n]) && FreshPieces(pieces[n..])
  {
    if FreshPieces(pieces) then 0
    else
      var n := Until(pieces[1..]);
      assert pieces[..n + 1] == [pieces[0]] + pieces[1..][..n] && pieces[n + 1..] == pieces[1..][n..];
      n + 1
  }

  // ---- files lost ----

  const NOTHING_SAID := DiffFile(NO_CHANGE, 0, 0, Text([]))

  // `after` is `before` without some files that say nothing.
  predicate Thinned(before: seq<DiffFile>, after: seq<DiffFile>)
    decreases |before|
  {
    if before == [] then after == []
    else
      || (after != [] && after[0] == before[0] && Thinned(before[1..], after[1..]))
      || (before[0] == NOTHING_SAID && Thinned(before[1..], after))
  }

  predicate Meaningful(f: DiffFile) {
    f.body.Binary? || f.body.hunks != []
  }

  function MeaningfulFiles(files: seq<DiffFile>): seq<DiffFile> {
    if files == [] then []
    else if Meaningful(files[0]) then [files[0]] + MeaningfulFiles(files[1..]) else MeaningfulFiles(files[1..])
  }

  lemma {:induction false} ThinnedMeaningful(before: seq<DiffFile>, after: seq<DiffFile>)
    requires Thinned(before, after)
    ensures MeaningfulFiles(after) == MeaningfulFiles(before)
    decreases |before|
  {
    if before != [] {
      if after != [] && after[0] == before[0] && Thinned(before[1..], after[1..]) {
        ThinnedMeaningful(before[1..], after[1..]);
      } else {
        ThinnedMeaningful(before[1..], after);
      }
    }
  }

  lemma {:induction false} ThinnedSelf(files: seq<DiffFile>)
    ensures Thinned(files, files)
    decreases |files|
  {
    if files != [] { ThinnedSelf(files[1..]); }
  }

  lemma {:induction false} ThinnedConcat(a: seq<DiffFile>, b: seq<DiffFile>, c: seq<DiffFile>, d: seq<DiffFile>)
    requires Thinned(a, b) && Thinned(c, d)
    ensures Thinned(a + c, b + d)
    decreases |a|
  {
    if a == [] {
      assert a + c == c && b + d == d;
    } else {
      assert (a + c)[0] == a[0] && (a + c)[1..] == a[1..] + c;
      if b != [] && b[0] == a[0] && Thinned(a[1..], b[1..]) {
        ThinnedConcat(a[1..], b[1..], c, d);
        assert (b + d)[1..] == b[1..] + d;
      } else {
        ThinnedConcat(a[1..], b, c, d);
      }
    }
  }

  // ---- before the first hunk ----

  predicate PreHunk(v: State) {
    View(v) == v && v.current.Some? && v.current.value.hunks == [] && v.hunk.None?
  }

  function Marked(v: State, header: seq<Byte>): State
    requires v.current.Some?
  {
    v.(current := Some(v.current.value.(binary := v.current.value.binary || BinaryMarker(Lossy(header)))))
  }

  // A header line can only mark the file as binary.
  lemma {:induction false} HeaderStep(v: State, c: seq<Byte>, next: Option<seq<Byte>>)
    requires PreHunk(v) && !(DIFF_GIT <= WithoutReturn(c)) && !(AT <= WithoutReturn(c))
    ensures StepContents(v, c, next) == (Marked(v, WithoutReturn(c)), 1) && PreHunk(Marked(v, WithoutReturn(c)))
  {
    hide ApplyHeader, Lossy, BinaryMarker, WithoutReturn, ViewFiles, ViewHunks, DiffGitPaths, UnifiedFile, StartHunk, PushRow;
    var text := Lossy(WithoutReturn(c));
    ApplyHeaderKeeps(v.current.value, text);
  }

  lemma {:induction false} NotMarked(v: State, header: seq<Byte>)
    requires v.current.Some? && !BinaryMarker(Lossy(header))
    ensures Marked(v, header) == v
  {
    hide BinaryMarker, Lossy;
  }

  lemma {:induction false} NoMarker(prefix: seq<Byte>, header: seq<Byte>)
    requires Ascii(prefix) && prefix != [] && prefix[0] != 66 && prefix[0] != 71 && prefix <= header
    ensures !BinaryMarker(Lossy(header))
  {
    LossyPrefix(prefix, header);
    hide Lossy;
    assert Lossy(header)[0] == prefix[0];
    assert BINARY_FILES[0] == 66 && BINARY_PATCH[0] == 71;
  }

  lemma {:induction false} PrefixKinds(header: seq<Byte>)
    ensures TempMode(header) || MINUS <= header || PLUS <= header || AT <= header || header == [] || INDEX <= header ==> !BinaryMarker(Lossy(header))
    ensures BINARY_FILES <= header ==> BinaryMarker(Lossy(header))
  {
    assert MINUS[0] == 45 && PLUS[0] == 43 && OLD_MODE[0] == 111 && NEW_MODE[0] == 110 && AT[0] == 64 && INDEX[0] == 105;
    if OLD_MODE <= header { NoMarker(OLD_MODE, header); }
    if NEW_MODE <= header { NoMarker(NEW_MODE, header); }
    if MINUS <= header { NoMarker(MINUS, header); }
    if PLUS <= header { NoMarker(PLUS, header); }
    if AT <= header { NoMarker(AT, header); }
    if INDEX <= header { NoMarker(INDEX, header); }
    if BINARY_FILES <= header { LossyPrefix(BINARY_FILES, header); }
    if header == [] { assert |BINARY_PATCH| == 16 && |BINARY_FILES| == 13; }
  }

  // A rewritten header line: still that kind of line, and final.
  lemma {:induction false} NewHeaderKind(header: seq<Byte>, path: seq<Byte>)
    requires NewHeader(header, path).Some?
    ensures var h := NewHeader(header, path).value;
            && LineSafe(h) && BinaryMarker(Lossy(h)) == BinaryMarker(Lossy(header))
            && !(DIFF_GIT <= h) && !(AT <= h) && !TempMode(h) && NewHeader(h, path) == Some(h)
  {
    hide NewHeader, Lossy, BinaryMarker, PatchPath;
    var h := NewHeader(header, path).value;
    NewHeaderPrefix(header, path);
    PrefixKinds(header);
    PrefixKinds(h);
    OtherKinds(h);
  }

  lemma {:induction false} OtherKinds(h: seq<Byte>)
    requires MINUS <= h || PLUS <= h || BINARY_FILES <= h
    ensures !(DIFF_GIT <= h) && !(AT <= h) && !TempMode(h)
  {
    assert MINUS[0] == 45 && PLUS[0] == 43 && BINARY_FILES[0] == 66;
    assert OLD_MODE[0] == 111 && NEW_MODE[0] == 110 && DIFF_GIT[0] == 100 && AT[0] == 64;
  }

  lemma {:induction false} SafeSides(path: seq<Byte>)
    ensures LineSafe(PatchPath(A_SIDE, path)) && LineSafe(PatchPath(B_SIDE, path))
    ensures PatchPath(A_SIDE, path) != DEV_NULL && PatchPath(B_SIDE, path) != DEV_NULL
  {
    QuoteIsSafe(A_SIDE + path);
    QuoteIsSafe(B_SIDE + path);
    assert (A_SIDE + path)[0] == 97 && (B_SIDE + path)[0] == 98 && DEV_NULL[0] == 47;
    hide QuoteBytes, LineSafe, Plain;
  }

  lemma {:induction false} SideLineIs(prefix: seq<Byte>, header: seq<Byte>, path: seq<Byte>)
    requires prefix <= header && LineSafe(prefix) && LineSafe(path) && path != DEV_NULL
    ensures var h := SideLine(prefix, header, path); LineSafe(h) && prefix <= h && SideLine(prefix, h, path) == h
  {
    assert LineSafe(DEV_NULL);
    hide LineSafe;
    var side := if header[|prefix|..] == DEV_NULL then DEV_NULL else path;
    SafeConcat(prefix, side);
    AfterPrefix(prefix, side);
  }

  function BinaryLine(a: seq<Byte>, b: seq<Byte>): seq<Byte> {
    BINARY_FILES + a + AND + b + DIFFER
  }

  lemma {:induction false} BinaryLineIs(a: seq<Byte>, b: seq<Byte>)
    requires LineSafe(a) && LineSafe(b)
    ensures LineSafe(BinaryLine(a, b)) && BINARY_FILES <= BinaryLine(a, b) && EndsWith(BinaryLine(a, b), DIFFER)
  {
    assert LineSafe(BINARY_FILES) && LineSafe(AND) && LineSafe(DIFFER);
    hide LineSafe, EndsWith;
    SafeConcat(BINARY_FILES, a);
    SafeConcat(BINARY_FILES + a, AND);
    SafeConcat(BINARY_FILES + a + AND, b);
    SafeConcat(BINARY_FILES + a + AND + b, DIFFER);
    EndsParts(BINARY_FILES, a, AND, b, DIFFER);
  }

  lemma {:induction false} EndsParts(a: seq<Byte>, b: seq<Byte>, c: seq<Byte>, d: seq<Byte>, e: seq<Byte>)
    ensures a <= a + b + c + d + e && EndsWith(a + b + c + d + e, e)
  {
    AfterPrefix(a + b + c + d, e);
    assert a <= a + b <= a + b + c <= a + b + c + d <= a + b + c + d + e;
  }

  lemma {:induction false} SafePrefixes()
    ensures LineSafe(MINUS) && LineSafe(PLUS)
  {
  }

  // Rewriting gives a plain header of the same kind, and the same one the second time.
  lemma {:induction false} NewHeaderPrefix(header: seq<Byte>, path: seq<Byte>)
    requires NewHeader(header, path).Some?
    ensures var h := NewHeader(header, path).value;
            && LineSafe(h) && NewHeader(h, path) == Some(h)
            && (MINUS <= header ==> MINUS <= h) && (!(MINUS <= header) && PLUS <= header ==> PLUS <= h)
            && (!(MINUS <= header) && !(PLUS <= header) ==> BINARY_FILES <= header && BINARY_FILES <= h)
  {
    hide PatchPath, EndsWith, LineSafe, SideLine, BinaryMarker, StatusLine;
    SafePrefixes();
    SafeSides(path);
    var h := NewHeader(header, path).value;
    OneKind(h);
    if MINUS <= header {
      SideLineIs(MINUS, header, PatchPath(A_SIDE, path));
    } else if PLUS <= header {
      SideLineIs(PLUS, header, PatchPath(B_SIDE, path));
    } else {
      BinaryLineIs(PatchPath(A_SIDE, path), PatchPath(B_SIDE, path));
      BinaryIsNoSide(h);
    }
  }

  lemma {:induction false} BinaryIsNoSide(h: seq<Byte>)
    requires BINARY_FILES <= h
    ensures !(MINUS <= h) && !(PLUS <= h)
  {
    assert MINUS[0] == 45 && PLUS[0] == 43 && BINARY_FILES[0] == 66;
  }

  // The parts of a line made of a safe header and an ending.
  lemma {:induction false} PartsOf(h: seq<Byte>, piece: seq<Byte>)
    requires LineSafe(h)
    ensures LineParts(h + LineParts(piece).1) == (h, LineParts(piece).1)
    ensures WithoutReturn(Content(h + LineParts(piece).1)) == h
  {
    var e := LineParts(piece).1;
    var s := h + e;
    assert e == [] || e == [RETURN] || e == [NEWLINE] || e == [RETURN, NEWLINE];
    PartsJoin(s);
    assert |s| == |h| + |e|;
    assert s[..|h|] == h;
    if e == [] { assert s == h; }
  }

  lemma {:induction false} PieceStarts(piece: seq<Byte>)
    ensures BeginsFile(Content(piece)) <==> StartsPiece(piece)
    ensures WithoutReturn(Content(piece)) == HeaderOf(piece)
  {
    PartsJoin(piece);
  }

  // ---- the body of a section ----

  lemma {:induction false} BodyVerbatim(pieces: seq<seq<Byte>>, path: seq<Byte>)
    ensures NewBody(true, pieces, path) == pieces
    decreases |pieces|
  {
    hide LineParts, NewHeader, TempMode;
    if pieces != [] {
      BodyVerbatim(pieces[1..], path);
      assert [pieces[0]] + pieces[1..] == pieces;
    }
  }

  lemma {:induction false} AtIsKept(header: seq<Byte>, path: seq<Byte>)
    requires AT <= header
    ensures !TempMode(header) && NewHeader(header, path).None? && Substantial(header)
  {
    OneKind(header);
    assert AT[0] == 64 && OLD_MODE[0] == 111 && NEW_MODE[0] == 110 && INDEX[0] == 105 && BINARY_FILES[0] == 66;
    hide PatchPath;
  }

  lemma {:induction false} HasFile(v: State)
    requires PreHunk(v)
    ensures v.current.Some?
  {
  }

  lemma {:induction false} RunHeader(v: State, x: seq<Byte>, ps: seq<seq<Byte>>)
    requires PreHunk(v) && !(DIFF_GIT <= HeaderOf(x)) && !(AT <= HeaderOf(x))
    ensures v.current.Some? && RunContents(v, PieceContents([x] + ps)) == RunContents(Marked(v, HeaderOf(x)), PieceContents(ps))
    ensures PreHunk(Marked(v, HeaderOf(x)))
  {
    hide StepContents, LineParts, Content, PieceContents, WithoutReturn, PreHunk, Lossy, BinaryMarker;
    HasFile(v);
    PieceStarts(x);
    ContentsCons(x, ps);
    var cs := PieceContents([x] + ps);
    assert cs[1..] == PieceContents(ps);
    HeaderStep(v, Content(x), Head(cs[1..]));
    RunOne(v, cs);
  }

  lemma {:induction false} RunOne(v: State, cs: seq<seq<Byte>>)
    requires cs != [] && StepContents(v, cs[0], Head(cs[1..])).1 == 1
    ensures RunContents(v, cs) == RunContents(StepContents(v, cs[0], Head(cs[1..])).0, cs[1..])
  {
    hide StepContents;
  }

  // Before and after rewriting, a section's body does the same to the file.
  lemma {:induction false} BodyMeans(v: State, body: seq<seq<Byte>>, path: seq<Byte>)
    requires PreHunk(v) && NoStart(body)
    ensures RunContents(v, PieceContents(NewBody(false, body, path))) == RunContents(v, PieceContents(body))
    decreases |body|
  {
    hide PreHunk, RunContents, PieceContents, LineParts, NewHeader, TempMode, BinaryMarker, Lossy, LineSafe;
    if body != [] {
      var x, rest := body[0], body[1..];
      var header, ending := LineParts(x).0, LineParts(x).1;
      assert body == [x] + rest;
      if AT <= header {
        AtIsKept(header, path);
        BodyVerbatim(rest, path);
      } else {
        RunHeader(v, x, rest);
        HasFile(v);
        var w := Marked(v, header);
        BodyMeans(w, rest, path);
        if TempMode(header) {
          PrefixKinds(header);
          NotMarked(v, header);
        } else if NewHeader(header, path).Some? {
          var h := NewHeader(header, path).value;
          NewHeaderKind(header, path);
          PartsOf(h, x);
          RunHeader(v, h + ending, NewBody(false, rest, path));
          SameMark(v, h, header);
        } else {
          RunHeader(v, x, NewBody(false, rest, path));
        }
      }
    }
  }

  lemma {:induction false} SameMark(v: State, h: seq<Byte>, header: seq<Byte>)
    requires v.current.Some? && BinaryMarker(Lossy(h)) == BinaryMarker(Lossy(header))
    ensures Marked(v, h) == Marked(v, header)
  {
    hide BinaryMarker, Lossy;
  }

  // A body that says nothing does nothing.
  lemma {:induction false} SilentBody(v: State, body: seq<seq<Byte>>)
    requires PreHunk(v) && NoStart(body) && !Says(false, body)
    ensures RunContents(v, PieceContents(body)) == v
    decreases |body|
  {
    hide PreHunk, LineParts, NewHeader, BinaryMarker, Lossy, StepContents;
    if body != [] {
      hide RunContents, PieceContents;
      var x, rest := body[0], body[1..];
      var header := HeaderOf(x);
      assert body == [x] + rest;
      if AT <= header { AtIsKept(header, []); }
      RunHeader(v, x, rest);
      PrefixKinds(header);
      HasFile(v);
      NotMarked(v, header);
      SilentBody(v, rest);
    }
  }

  // ---- whole sections ----

  lemma {:induction false} BegunIsPreHunk()
    ensures PreHunk(Begun([])) && Closed(Begun([])).files == [NOTHING_SAID] && Closed(START).files == []
  {
  }

  lemma {:induction false} FilesOfSection(first: seq<Byte>, body: seq<seq<Byte>>)
    requires StartsPiece(first)
    ensures Files(PieceContents([first] + body)) == Closed(RunContents(Begun([]), PieceContents(body))).files
  {
    hide StepContents, Closed, PieceContents, StartsPiece, BeginsFile, Content;
    PieceStarts(first);
    ContentsCons(first, body);
    var cs := PieceContents([first] + body);
    assert cs[1..] == PieceContents(body);
    StartView();
    BegunIsPreHunk();
    StepStarts(START, cs[0], Head(cs[1..]));
    RunOne(START, cs);
  }

  lemma {:induction false} NewFirst(first: seq<Byte>, path: seq<Byte>)
    ensures var h := DIFF_GIT + Sides(path) + LineParts(first).1;
            && NewSect(first, path).lines == [h] && StartsPiece(h) && LineParts(h).1 == LineParts(first).1 && NewSect(h, path).lines == [h]
  {
    hide Sides, LineParts;
    SafeHeaders(path);
    PartsOf(DIFF_GIT + Sides(path), first);
  }

  lemma {:induction false} SectionMeans(first: seq<Byte>, body: seq<seq<Byte>>, path: seq<Byte>)
    requires StartsPiece(first) && NoStart(body)
    ensures Thinned(Files(PieceContents([first] + body)), Files(PieceContents(SectionOut(first, body, path))))
    ensures FreshPieces(SectionOut(first, body, path))
  {
    hide Says, NewBody, Closed, RunContents, PieceContents, StartsPiece, PreHunk, NewSect, Sides;
    BegunIsPreHunk();
    FilesOfSection(first, body);
    if Says(false, body) {
      NewFirst(first, path);
      BodyMeans(Begun([]), body, path);
      FilesOfSection(NewSect(first, path).lines[0], NewBody(false, body, path));
      ThinnedSelf(Files(PieceContents([first] + body)));
    } else {
      SilentBody(Begun([]), body);
      NoFiles();
    }
  }

  lemma {:induction false} NoFiles()
    ensures Files(PieceContents([])) == []
  {
    assert RunContents(START, []) == START;
    assert Closed(START) == START;
  }

  lemma {:induction false} FreshContents(pieces: seq<seq<Byte>>)
    requires FreshPieces(pieces)
    ensures Fresh(PieceContents(pieces))
  {
    if pieces != [] { PieceStarts(pieces[0]); }
    hide StartsPiece, BeginsFile;
  }

  lemma {:induction false} FilesConcat(a: seq<seq<Byte>>, b: seq<seq<Byte>>)
    requires FreshPieces(b)
    ensures Files(PieceContents(a + b)) == Files(PieceContents(a)) + Files(PieceContents(b))
  {
    hide Files, PieceContents;
    ContentsConcat(a, b);
    FreshContents(b);
    FilesSplit(PieceContents(a), PieceContents(b));
  }

  lemma {:induction false} FreshConcat(a: seq<seq<Byte>>, b: seq<seq<Byte>>)
    requires FreshPieces(a) && FreshPieces(b)
    ensures FreshPieces(a + b)
  {
    hide StartsPiece;
    if a == [] { assert a + b == b; }
  }

  // A patch of sections: after rewriting, the same files but for some that say nothing.
  lemma {:induction false} SectionsMean(pieces: seq<seq<Byte>>, path: seq<Byte>)
    requires FreshPieces(pieces)
    ensures Thinned(Files(PieceContents(pieces)), Files(PieceContents(Rest(None, pieces, path))))
    ensures FreshPieces(Rest(None, pieces, path))
    decreases |pieces|
  {
    if pieces == [] {
      ThinnedSelf(Files(PieceContents(pieces)));
    } else {
      hide Files, PieceContents, Rest, SectionOut, StartsPiece, NoStart, Thinned;
      var first, tail := pieces[0], pieces[1..];
      var n := Until(tail);
      var body, rest := tail[..n], tail[n..];
      assert pieces == [first] + body + rest && pieces == [first] + (body + rest);
      SectionsMean(rest, path);
      SectionMeans(first, body, path);
      RestOfSections(first, body, rest, path);
      var out, more := SectionOut(first, body, path), Rest(None, rest, path);
      FilesConcat([first] + body, rest);
      FilesConcat(out, more);
      ThinnedConcat(Files(PieceContents([first] + body)), Files(PieceContents(out)), Files(PieceContents(rest)), Files(PieceContents(more)));
      FreshConcat(out, more);
    }
  }

  lemma {:induction false} PiecesMean(pieces: seq<seq<Byte>>, path: seq<Byte>)
    ensures Thinned(Files(PieceContents(pieces)), Files(PieceContents(RewritePieces(pieces, path))))
  {
    hide Files, PieceContents, Rest, StartsPiece, Thinned;
    var n := Until(pieces);
    var pre, rest := pieces[..n], pieces[n..];
    assert pieces == pre + rest;
    RestOfPreamble(pre, rest, path);
    SectionsMean(rest, path);
    FilesConcat(pre, rest);
    FilesConcat(pre, Rest(None, rest, path));
    ThinnedSelf(Files(PieceContents(pre)));
    ThinnedConcat(Files(PieceContents(pre)), Files(PieceContents(pre)), Files(PieceContents(rest)), Files(PieceContents(Rest(None, rest, path))));
  }

  // ---- the rewritten text comes apart into the rewritten lines ----

  lemma {:induction false} NewPiece(h: seq<Byte>, x: seq<Byte>)
    requires LineSafe(h) && h != [] && Piece(x)
    ensures Piece(h + LineParts(x).1) && (Terminated(x) ==> Terminated(h + LineParts(x).1))
  {
  }

  lemma {:induction false} AddedPiece(s: Sect, x: seq<Byte>, path: seq<Byte>)
    requires Piece(x) && AllTerminated(s.lines)
    ensures PieceList(AddLine(s, x, path).lines) && (Terminated(x) ==> AllTerminated(AddLine(s, x, path).lines))
  {
    hide NewHeader, LineParts, TempMode, Substantial, Piece;
    if NewHeader(HeaderOf(x), path).Some? {
      NewHeaderSafe(HeaderOf(x), path);
      NewPiece(NewHeader(HeaderOf(x), path).value, x);
    }
    TerminatedIsList(s.lines);
  }

  lemma {:induction false} NewHeaderSafe(header: seq<Byte>, path: seq<Byte>)
    requires NewHeader(header, path).Some?
    ensures LineSafe(NewHeader(header, path).value) && NewHeader(header, path).value != []
  {
    NewHeaderPrefix(header, path);
    hide LineSafe, PatchPath, EndsWith;
  }

  lemma {:induction false} ListTail(pieces: seq<seq<Byte>>)
    requires PieceList(pieces) && pieces != []
    ensures PieceList(pieces[1..]) && Piece(pieces[0]) && (pieces[1..] != [] ==> Terminated(pieces[0]))
  {
    hide Piece, Terminated;
  }

  lemma {:induction false} RestPieces(s: Option<Sect>, pieces: seq<seq<Byte>>, path: seq<Byte>)
    requires PieceList(pieces)
    requires s.Some? ==> PieceList(s.value.lines) && (pieces != [] ==> AllTerminated(s.value.lines))
    ensures PieceList(Rest(s, pieces, path))
    decreases |pieces|
  {
    hide PieceList, AllTerminated, StartsPiece, AddLine, Piece, NewSect, Terminated, LineParts;
    if pieces == [] {
      EmptyList();
    } else {
      var x := pieces[0];
      ListTail(pieces);
      if StartsPiece(x) {
        FirstPieces(x, path);
        RestPieces(Some(NewSect(x, path)), pieces[1..], path);
        EmptyList();
        ListConcat(Flushed(s), Rest(Some(NewSect(x, path)), pieces[1..], path));
      } else if s.None? {
        RestPieces(None, pieces[1..], path);
        OnePiece(x, Rest(None, pieces[1..], path), pieces[1..] != []);
      } else {
        AddedPiece(s.value, x, path);
        RestPieces(Some(AddLine(s.value, x, path)), pieces[1..], path);
      }
    }
  }

  lemma {:induction false} EmptyList()
    ensures PieceList([]) && AllTerminated([])
  {
  }

  lemma {:induction false} OnePiece(x: seq<Byte>, rest: seq<seq<Byte>>, more: bool)
    requires Piece(x) && (more ==> Terminated(x)) && PieceList(rest) && (!more ==> rest == [])
    ensures PieceList([x] + rest)
  {
    hide Piece;
  }

  lemma {:induction false} FirstPieces(x: seq<Byte>, path: seq<Byte>)
    requires Piece(x)
    ensures PieceList(NewSect(x, path).lines) && (Terminated(x) ==> AllTerminated(NewSect(x, path).lines))
  {
    hide LineParts, Sides, Piece, LineSafe;
    SafeHeaders(path);
    assert DIFF_GIT + Sides(path) != [] by { assert |DIFF_GIT| == 11; }
    NewPiece(DIFF_GIT + Sides(path), x);
  }

  lemma {:induction false} RewrittenPieces(patch: seq<Byte>, path: seq<Byte>)
    ensures Pieces(Rewrite(patch, path)) == RewritePieces(Pieces(patch), path)
  {
    hide Pieces, PieceList, Join, Rest;
    JoinPieces(patch);
    RestPieces(None, Pieces(patch), path);
    PiecesJoin(RewritePieces(Pieces(patch), path));
  }

  // For every patch and every display path: parsing the rewritten patch gives the files
  // of the original, hunk for hunk and row for row, in order and with the same counts
  // and binary flags, without some files that had no hunk, no count and no binary mark.
  lemma {:induction false} RewriteKeepsMeaning(patch: seq<Byte>, path: seq<Byte>)
    requires |patch| <= ISIZE_MAX && |Rewrite(patch, path)| <= ISIZE_MAX
    ensures var before := ParseRange(patch, 0, |patch|, UNLIMITED);
            var after := ParseRange(Rewrite(patch, path), 0, |Rewrite(patch, path)|, UNLIMITED);
            && before.Ok? && after.Ok?
            && Thinned(ViewFiles(before.value), ViewFiles(after.value))
            && MeaningfulFiles(ViewFiles(after.value)) == MeaningfulFiles(ViewFiles(before.value))
  {
    hide ParseRange, Files, ViewFiles, PieceContents, Pieces, Rewrite, RewritePieces, Thinned, MeaningfulFiles;
    ParseIsOk(patch);
    ParseIsOk(Rewrite(patch, path));
    ParseMeans(patch, UNLIMITED);
    ParseMeans(Rewrite(patch, path), UNLIMITED);
    RewrittenPieces(patch, path);
    PiecesMean(Pieces(patch), path);
    ThinnedMeaningful(Files(PieceContents(Pieces(patch))), Files(PieceContents(RewritePieces(Pieces(patch), path))));
  }

  // ---- rewriting twice ----

  lemma {:induction false} BodyTwice(body: seq<seq<Byte>>, path: seq<Byte>)
    requires NoStart(body)
    ensures var out := NewBody(false, body, path);
            NewBody(false, out, path) == out && (Says(false, out) <==> Says(false, body)) && NoStart(out)
    decreases |body|
  {
    hide LineParts, NewHeader, TempMode, Substantial, LineSafe, BinaryMarker, Lossy;
    if body != [] {
      var x, rest := body[0], body[1..];
      var header, ending := LineParts(x).0, LineParts(x).1;
      var more := NewBody(false, rest, path);
      BodyTwice(rest, path);
      HeaderPathFree(header, path);
      if TempMode(header) {
      } else if NewHeader(header, path).Some? {
        var h := NewHeader(header, path).value;
        NewHeaderKind(header, path);
        HeaderPathFree(h, path);
        PartsOf(h, x);
        var out := [h + ending] + more;
        assert out[1..] == more && NewBody(false, body, path) == out;
        assert NoStart(out);
      } else if AT <= header {
        BodyVerbatim(rest, path);
        assert NewBody(false, body, path) == [x] + rest == body;
      } else {
        var out := [x] + more;
        assert out[1..] == more && NewBody(false, body, path) == out;
        assert NoStart(out);
      }
    }
  }

  lemma {:induction false} SectionTwice(first: seq<Byte>, body: seq<seq<Byte>>, rest: seq<seq<Byte>>, path: seq<Byte>)
    requires StartsPiece(first) && NoStart(body) && FreshPieces(rest)
    ensures Rest(None, SectionOut(first, body, path) + rest, path) == SectionOut(first, body, path) + Rest(None, rest, path)
  {
    hide Says, NewBody, StartsPiece, NewSect, NoStart, Rest, LineParts, Sides;
    if Says(false, body) {
      var h := DIFF_GIT + Sides(path) + LineParts(first).1;
      NewFirst(first, path);
      BodyTwice(body, path);
      var out := NewBody(false, body, path);
      assert SectionOut(first, body, path) + rest == [h] + (out + rest);
      RestOfSections(h, out, rest, path);
    } else {
      assert [] + rest == rest && [] + Rest(None, rest, path) == Rest(None, rest, path);
    }
  }

  lemma {:induction false} SectionsTwice(pieces: seq<seq<Byte>>, path: seq<Byte>)
    requires FreshPieces(pieces)
    ensures Rest(None, Rest(None, pieces, path), path) == Rest(None, pieces, path) && FreshPieces(Rest(None, pieces, path))
    decreases |pieces|
  {
    if pieces != [] {
      hide Rest, SectionOut, StartsPiece, NoStart;
      var first, tail := pieces[0], pieces[1..];
      var n := Until(tail);
      var body, rest := tail[..n], tail[n..];
      assert pieces == [first] + (body + rest);
      SectionsTwice(rest, path);
      RestOfSections(first, body, rest, path);
      SectionTwice(first, body, Rest(None, rest, path), path);
      SectionFresh(first, body, path);
      FreshConcat(SectionOut(first, body, path), Rest(None, rest, path));
    }
  }

  lemma {:induction false} SectionFresh(first: seq<Byte>, body: seq<seq<Byte>>, path: seq<Byte>)
    ensures FreshPieces(SectionOut(first, body, path))
  {
    NewFirst(first, path);
    hide Says, NewBody, NewSect, Sides, LineParts, StartsPiece;
  }

  // Rewriting a rewritten patch with the same display path changes nothing.
  lemma {:induction false} RewriteIsIdempotent(patch: seq<Byte>, path: seq<Byte>)
    ensures Rewrite(Rewrite(patch, path), path) == Rewrite(patch, path)
  {
    hide Pieces, Rest, StartsPiece, NoStart, Join;
    RewrittenPieces(patch, path);
    var pieces := Pieces(patch);
    var n := Until(pieces);
    var pre, rest := pieces[..n], pieces[n..];
    assert pieces == pre + rest;
    RestOfPreamble(pre, rest, path);
    SectionsTwice(rest, path);
    RestOfPreamble(pre, Rest(None, rest, path), path);
  }
}

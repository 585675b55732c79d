// The streaming stat counter: its line machine, the parser object that runs it in place,
// and the proof that it counts what the full parser finds.
module PatchStats {
  import opened Wrappers
  import opened Utf8
  import opened GitPaths
  import opened PatchModel
  import opened PatchPieces

  datatype PatchFileStat = PatchFileStat(oldPath: Option<seq<Byte>>, newPath: Option<seq<Byte>>, additions: nat, deletions: nat, isBinary: bool)
  datatype Totals = Totals(files: nat, additions: nat, deletions: nat, binaryFiles: nat)
  datatype FileCount = FileCount(oldPath: Option<seq<Byte>>, newPath: Option<seq<Byte>>, additions: nat, deletions: nat, isBinary: bool, seenHunk: bool)
  datatype HunkCount = HunkCount(oldRemaining: nat, newRemaining: nat)

  datatype Count = Count(files: seq<PatchFileStat>, totals: Totals, current: Option<FileCount>, hunk: Option<HunkCount>)

  const NO_FILE := FileCount(None, None, 0, 0, false, false)
  const NOTHING := Count([], Totals(0, 0, 0, 0), None, None)

  // ---- the line machine ----

  function SidePath(path: seq<Byte>, prefix: seq<Byte>): Option<seq<Byte>> {
    if UnifiedPath(path) == DEV_NULL then None else Some(StripSide(UnifiedPath(path), prefix))
  }

  // `PatchFileStatBuilder::apply_header`
  function ApplyCount(f: FileCount, line: seq<Byte>): FileCount {
    if BinaryMarker(line) then f.(isBinary := true)
    else if MINUS <= line then f.(oldPath := SidePath(line[|MINUS|..], A_SIDE))
    else if PLUS <= line then f.(newPath := SidePath(line[|PLUS|..], B_SIDE))
    else if RENAME_FROM <= line then f.(oldPath := Some(MetadataPath(line[|RENAME_FROM|..])))
    else if RENAME_TO <= line then f.(newPath := Some(MetadataPath(line[|RENAME_TO|..])))
    else if COPY_FROM <= line then f.(oldPath := Some(MetadataPath(line[|COPY_FROM|..])))
    else if COPY_TO <= line then f.(newPath := Some(MetadataPath(line[|COPY_TO|..])))
    else f
  }

  function FileOf(f: FileCount): PatchFileStat {
    PatchFileStat(f.oldPath, f.newPath, f.additions, f.deletions, f.isBinary)
  }

  function Tally(t: Totals, f: PatchFileStat): Totals {
    Totals(t.files + 1, t.additions + f.additions, t.deletions + f.deletions, t.binaryFiles + if f.isBinary then 1 else 0)
  }

  // `finish_patch_stat_file`
  function FinishCount(c: Count): Count {
    if c.current.None? then c
    else
      var f := FileOf(c.current.value);
      c.(files := c.files + [f], totals := Tally(c.totals, f), current := None)
  }

  function HunkOf(line: seq<Byte>): HunkCount {
    HunkCount(HunkHeader(line).oldCount, HunkHeader(line).newCount)
  }

  // `PatchHunkStat::push_line` on the hunk
  function CountRow(h: HunkCount, line: seq<Byte>): HunkCount {
    if line != [] && line[0] == 43 then h.(newRemaining := SatSub(h.newRemaining, 1))
    else if line != [] && line[0] == 45 then h.(oldRemaining := SatSub(h.oldRemaining, 1))
    else if line != [] && line[0] == BACKSLASH then h
    else HunkCount(SatSub(h.oldRemaining, 1), SatSub(h.newRemaining, 1))
  }

  // ... and on the file
  function CountChange(f: FileCount, line: seq<Byte>): FileCount {
    if line != [] && line[0] == 43 then f.(additions := f.additions + 1)
    else if line != [] && line[0] == 45 then f.(deletions := f.deletions + 1)
    else f
  }

  predicate Used(h: HunkCount) {
    h.oldRemaining == 0 && h.newRemaining == 0
  }

  // `push_header_line`
  function CountHeader(c: Count, line: seq<Byte>): Count {
    if DIFF_GIT <= line then
      var paths := DiffGitPaths(line);
      FinishCount(c).(current := Some(NO_FILE.(oldPath := paths.0, newPath := paths.1)))
    else if MINUS <= line then
      var d := if c.current.Some? && c.current.value.seenHunk then FinishCount(c) else c;
      d.(current := Some(ApplyCount(if d.current.Some? then d.current.value else NO_FILE, line)))
    else if c.current.None? then c
    else if AT <= line then c.(current := Some(c.current.value.(seenHunk := true)), hunk := Some(HunkOf(line)))
    else c.(current := Some(ApplyCount(c.current.value, line)))
  }

  // `push_line_bytes`
  function CountLine(c: Count, line: seq<Byte>): Count {
    if c.hunk.Some? then
      var h := CountRow(c.hunk.value, line);
      c.(current := if c.current.Some? then Some(CountChange(c.current.value, line)) else None,
         hunk := if Used(h) then None else Some(h))
    else CountHeader(c, Lossy(line))
  }

  function CountAll(c: Count, lines: seq<seq<Byte>>): Count
    decreases |lines|
  {
    if lines == [] then c else CountAll(CountLine(c, lines[0]), lines[1..])
  }

  // The lines the counter sees: without their endings.
  function Bare(pieces: seq<seq<Byte>>): seq<seq<Byte>> {
    if pieces == [] then [] else [LineParts(pieces[0]).0] + Bare(pieces[1..])
  }

  // `parse_patch_stats_lossy`
  function Stats(raw: seq<Byte>): Count {
    FinishCount(CountAll(NOTHING, Bare(Pieces(raw))))
  }

  // ---- the counter in place ----

  class PatchFileStatBuilder {
    var oldPath: Option<seq<Byte>>
    var newPath: Option<seq<Byte>>
    var additions: nat
    var deletions: nat
    var isBinary: bool
    var seenHunk: bool

    ghost function Abs(): FileCount
      reads this
    {
      FileCount(oldPath, newPath, additions, deletions, isBinary, seenHunk)
    }

    constructor ()
      ensures Abs() == NO_FILE
    {
      oldPath, newPath, additions, deletions, isBinary, seenHunk := None, None, 0, 0, false, false;
    }

    constructor FromDiffGit(line: seq<Byte>)
      ensures Abs() == NO_FILE.(oldPath := DiffGitPaths(line).0, newPath := DiffGitPaths(line).1)
    {
      var paths := DiffGitPaths(line);
      oldPath, newPath, additions, deletions, isBinary, seenHunk := paths.0, paths.1, 0, 0, false, false;
    }

    method ApplyHeader(line: seq<Byte>)
      modifies this
      ensures Abs() == ApplyCount(old(Abs()), line)
    {
      if BINARY_FILES <= line || line == BINARY_PATCH {
        isBinary := true;
      } else if MINUS <= line {
        var path := UnifiedPath(line[|MINUS|..]);
        oldPath := if path == DEV_NULL then None else Some(StripSide(path, A_SIDE));
      } else if PLUS <= line {
        var path := UnifiedPath(line[|PLUS|..]);
        newPath := if path == DEV_NULL then None else Some(StripSide(path, B_SIDE));
      } else if RENAME_FROM <= line {
        oldPath := Some(MetadataPath(line[|RENAME_FROM|..]));
      } else if RENAME_TO <= line {
        newPath := Some(MetadataPath(line[|RENAME_TO|..]));
      } else if COPY_FROM <= line {
        oldPath := Some(MetadataPath(line[|COPY_FROM|..]));
      } else if COPY_TO <= line {
        newPath := Some(MetadataPath(line[|COPY_TO|..]));
      }
    }
  }

  class PatchHunkStat {
    var oldRemaining: nat
    var newRemaining: nat

    ghost function Abs(): HunkCount
      reads this
    {
      HunkCount(oldRemaining, newRemaining)
    }

    constructor FromHeader(header: seq<Byte>)
      ensures Abs() == HunkOf(header)
    {
      var r := HunkHeader(header);
      oldRemaining, newRemaining := r.oldCount, r.newCount;
    }

    method PushLine(raw: seq<Byte>, file: PatchFileStatBuilder?)
      modifies this, file
      ensures Abs() == CountRow(old(Abs()), raw)
      ensures file != null ==> file.Abs() == CountChange(old(file.Abs()), raw)
    {
      if raw != [] && raw[0] == 43 {
        newRemaining := SatSub(newRemaining, 1);
        if file != null { file.additions := file.additions + 1; }
      } else if raw != [] && raw[0] == 45 {
        oldRemaining := SatSub(oldRemaining, 1);
        if file != null { file.deletions := file.deletions + 1; }
      } else if !(raw != [] && raw[0] == BACKSLASH) {
        oldRemaining, newRemaining := SatSub(oldRemaining, 1), SatSub(newRemaining, 1);
      }
    }
  }

  class PatchStatsParser {
    var files: seq<PatchFileStat>
    var totals: Totals
    var current: PatchFileStatBuilder?
    var currentHunk: PatchHunkStat?


    ghost function Abs(): Count
      reads this, current, currentHunk
    {
      Count(files, totals, if current == null then None else Some(current.Abs()), if currentHunk == null then None else Some(currentHunk.Abs()))
    }

    constructor ()
      ensures Abs() == NOTHING && current == null && currentHunk == null
    {
      files, totals, current, currentHunk := [], Totals(0, 0, 0, 0), null, null;
    }

    // `finish_patch_stat_file`
    method FinishFile()
      modifies this
      ensures Abs() == FinishCount(old(Abs())) && current == null && currentHunk == old(currentHunk)
    {
      if current != null {
        var file := PatchFileStat(current.oldPath, current.newPath, current.additions, current.deletions, current.isBinary);
        totals := Totals(totals.files + 1, totals.additions + file.additions, totals.deletions + file.deletions,
                         totals.binaryFiles + if file.isBinary then 1 else 0);
        files := files + [file];
        current := null;
      }
    }

    method PushHeaderLine(line: seq<Byte>)
      requires currentHunk == null
      modifies this, current
      ensures Abs() == CountHeader(old(Abs()), line)
      ensures current == old(current) || fresh(current)
      ensures currentHunk == null || fresh(currentHunk)
    {
      hide DiffGitPaths, ApplyCount, HunkHeader;
      if DIFF_GIT <= line {
        FinishFile();
        current := new PatchFileStatBuilder.FromDiffGit(line);
        return;
      }
      if MINUS <= line {
        if current != null && current.seenHunk { FinishFile(); }
        if current == null { current := new PatchFileStatBuilder(); }
        current.ApplyHeader(line);
        return;
      }
      if current != null {
        if AT <= line {
          current.seenHunk := true;
          currentHunk := new PatchHunkStat.FromHeader(line);
          return;
        }
        current.ApplyHeader(line);
      }
    }

    method PushLineBytes(line: seq<Byte>)
      modifies this, current, currentHunk
      ensures Abs() == CountLine(old(Abs()), line)
      ensures current == old(current) || fresh(current)
      ensures currentHunk == old(currentHunk) || currentHunk == null || fresh(currentHunk)
    {
      hide CountHeader, CountRow, CountChange, Lossy;
      if currentHunk != null {
        currentHunk.PushLine(line, current);
        if currentHunk.oldRemaining == 0 && currentHunk.newRemaining == 0 { currentHunk := null; }
        return;
      }
      PushHeaderLine(Lossy(line));
    }
  }

  // `parse_patch_stats_lossy`
  method ParsePatchStatsLossy(patch: seq<Byte>) returns (files: seq<PatchFileStat>, totals: Totals)
    ensures files == Stats(patch).files && totals == Stats(patch).totals
  {
    hide Pieces, LineParts, CountLine, FinishCount;
    var parser := new PatchStatsParser();
    var pieces := Pieces(patch);
    ghost var all := CountAll(NOTHING, Bare(pieces));
    for i := 0 to |pieces|
      invariant fresh(parser)
      invariant parser.current == null || fresh(parser.current)
      invariant parser.currentHunk == null || fresh(parser.currentHunk)
      invariant CountAll(parser.Abs(), Bare(pieces[i..])) == all
    {
      var line := LineParts(pieces[i]).0;
      assert pieces[i..][1..] == pieces[i + 1..];
      ghost var c := parser.Abs();
      BareStep(c, pieces[i..]);
      parser.PushLineBytes(line);
    }
    parser.FinishFile();
    assert pieces[|pieces|..] == [];
    files, totals := parser.files, parser.totals;
  }

  lemma {:induction false} BareStep(c: Count, pieces: seq<seq<Byte>>)
    requires pieces != []
    ensures CountAll(c, Bare(pieces)) == CountAll(CountLine(c, LineParts(pieces[0]).0), Bare(pieces[1..]))
  {
    hide CountLine, LineParts;
    var lines := Bare(pieces);
    assert lines[1..] == Bare(pieces[1..]);
  }
}

// The difftool path rewriter: it puts one display path into every file header before the
// first hunk of a section and drops sections that say nothing.
module Difftool {
  import opened Wrappers
  import opened Utf8
  import opened GitPaths
  import opened PatchModel
  import opened PatchPieces
  import opened PathRoundTrip

  const INDEX := Bytes("index ")
  const DIFFER := Bytes(" differ")
  const AND := Bytes(" and ")

  predicate EndsWith(s: seq<Byte>, suffix: seq<Byte>) {
    |suffix| <= |s| && s[|s| - |suffix|..] == suffix
  }

  // `is_difftool_temp_mode_line`
  predicate TempMode(header: seq<Byte>) {
    OLD_MODE <= header || NEW_MODE <= header
  }

  // `is_difftool_substantive_line`
  predicate Substantial(header: seq<Byte>) {
    header != [] && !(INDEX <= header)
  }

  predicate StartsPiece(piece: seq<Byte>) {
    DIFF_GIT <= LineParts(piece).0
  }

  // ---- the rewriting as a function ----

  function SideLine(prefix: seq<Byte>, header: seq<Byte>, path: seq<Byte>): seq<Byte>
    requires prefix <= header
  {
    prefix + if header[|prefix|..] == DEV_NULL then DEV_NULL else path
  }

  // What a header line before the first hunk becomes, when it names paths.
  function NewHeader(header: seq<Byte>, path: seq<Byte>): Option<seq<Byte>> {
    if MINUS <= header then Some(SideLine(MINUS, header, PatchPath(A_SIDE, path)))
    else if PLUS <= header then Some(SideLine(PLUS, header, PatchPath(B_SIDE, path)))
    else if BINARY_FILES <= header && EndsWith(header, DIFFER) then
      Some(BINARY_FILES + PatchPath(A_SIDE, path) + AND + PatchPath(B_SIDE, path) + DIFFER)
    else None
  }

  datatype Sect = Sect(lines: seq<seq<Byte>>, inHunk: bool, substantive: bool)

  function NewSect(piece: seq<Byte>, path: seq<Byte>): Sect {
    Sect([DIFF_GIT + Sides(path) + LineParts(piece).1], false, false)
  }

  function AddLine(s: Sect, piece: seq<Byte>, path: seq<Byte>): Sect {
    var header, ending := LineParts(piece).0, LineParts(piece).1;
    if !s.inHunk && TempMode(header) then s
    else if !s.inHunk && NewHeader(header, path).Some? then
      s.(lines := s.lines + [NewHeader(header, path).value + ending], substantive := true)
    else Sect(s.lines + [piece], s.inHunk || AT <= header, s.substantive || Substantial(header))
  }

  // `flush_difftool_patch_section`
  function Flushed(s: Option<Sect>): seq<seq<Byte>> {
    if s.Some? && s.value.substantive then s.value.lines else []
  }

  // What is still to be written, given the open section.
  function Rest(s: Option<Sect>, pieces: seq<seq<Byte>>, path: seq<Byte>): seq<seq<Byte>>
    decreases |pieces|
  {
    if pieces == [] then Flushed(s)
    else if StartsPiece(pieces[0]) then Flushed(s) + Rest(Some(NewSect(pieces[0], path)), pieces[1..], path)
    else if s.None? then [pieces[0]] + Rest(None, pieces[1..], path)
    else Rest(Some(AddLine(s.value, pieces[0], path)), pieces[1..], path)
  }

  // The lines of the rewritten patch.
  function RewritePieces(pieces: seq<seq<Byte>>, path: seq<Byte>): seq<seq<Byte>> {
    Rest(None, pieces, path)
  }

  function Rewrite(patch: seq<Byte>, path: seq<Byte>): seq<Byte> {
    Join(RewritePieces(Pieces(patch), path))
  }

  // ---- the rewriting in place ----

  class DifftoolPatchSection {
    var bytes: seq<Byte>
    var inHunk: bool
    var hasSubstantiveLine: bool

    ghost predicate Holds(s: Sect)
      reads this
    {
      bytes == Join(s.lines) && inHunk == s.inHunk && hasSubstantiveLine == s.substantive
    }

    constructor (first: seq<Byte>)
      ensures Holds(Sect([first], false, false))
    {
      bytes, inHunk, hasSubstantiveLine := first, false, false;
      new;
      JoinOne(first);
    }

    // The part of the loop that works on an open section.
    method Add(line: seq<Byte>, oldPath: seq<Byte>, newPath: seq<Byte>, ghost s: Sect, ghost path: seq<Byte>)
      requires Holds(s) && oldPath == PatchPath(A_SIDE, path) && newPath == PatchPath(B_SIDE, path)
      modifies this
      ensures Holds(AddLine(s, line, path))
    {
      hide PatchPath, LineParts, Join, EndsWith;
      var header, ending := LineParts(line).0, LineParts(line).1;
      if !inHunk {
        if OLD_MODE <= header || NEW_MODE <= header { return; }
        if MINUS <= header {
          var path' := if header[|MINUS|..] == DEV_NULL then DEV_NULL else oldPath;
          JoinSnoc(s.lines, MINUS + path' + ending);
          bytes, hasSubstantiveLine := bytes + (MINUS + path' + ending), true;
          return;
        }
        if PLUS <= header {
          var path' := if header[|PLUS|..] == DEV_NULL then DEV_NULL else newPath;
          JoinSnoc(s.lines, PLUS + path' + ending);
          bytes, hasSubstantiveLine := bytes + (PLUS + path' + ending), true;
          return;
        }
        if BINARY_FILES <= header && EndsWith(header, DIFFER) {
          var rewritten := BINARY_FILES + oldPath + AND + newPath + DIFFER + ending;
          JoinSnoc(s.lines, rewritten);
          bytes, hasSubstantiveLine := bytes + rewritten, true;
          return;
        }
      }
      if AT <= header { inHunk := true; }
      if header != [] && !(INDEX <= header) { hasSubstantiveLine := true; }
      JoinSnoc(s.lines, line);
      bytes := bytes + line;
    }
  }

  lemma {:induction false} JoinOne(p: seq<Byte>)
    ensures Join([p]) == p
  {
    assert [p][1..] == [] && p + Join([]) == p;
  }

  lemma {:induction false} JoinSnoc(ps: seq<seq<Byte>>, p: seq<Byte>)
    ensures Join(ps + [p]) == Join(ps) + p
  {
    JoinConcat(ps, [p]);
    JoinOne(p);
  }

  ghost predicate HoldsSection(section: DifftoolPatchSection?, s: Option<Sect>)
    reads section
  {
    if section == null then s == None else s.Some? && section.Holds(s.value)
  }

  // `rewrite_difftool_patch_paths`
  method RewriteDifftoolPatchPaths(patch: seq<Byte>, displayPath: seq<Byte>) returns (rewritten: seq<Byte>)
    ensures rewritten == Rewrite(patch, displayPath)
  {
    hide Join, Pieces, LineParts, NewHeader, AddLine, Quote;
    var oldPath := QuoteGitPath(A_SIDE + displayPath);
    var newPath := QuoteGitPath(B_SIDE + displayPath);
    rewritten := [];
    var section: DifftoolPatchSection? := null;
    ghost var open: Option<Sect> := None;
    var pieces := Pieces(patch);
    assert pieces[0..] == pieces;
    NothingYet(Join(Rest(open, pieces, displayPath)));
    for i := 0 to |pieces|
      invariant section != null ==> fresh(section)
      invariant HoldsSection(section, open)
      invariant rewritten + Join(Rest(open, pieces[i..], displayPath)) == Rewrite(patch, displayPath)
    {
      var line := pieces[i];
      var header, ending := LineParts(line).0, LineParts(line).1;
      TakeOne(open, pieces, i, displayPath, rewritten);
      if DIFF_GIT <= header {
        if section != null && section.hasSubstantiveLine { rewritten := rewritten + section.bytes; }
        JoinFlushed(open);
        section := new DifftoolPatchSection(DIFF_GIT + (oldPath + [SPACE] + newPath) + ending);
        open := Some(NewSect(line, displayPath));
      } else if section == null {
        rewritten := rewritten + line;
      } else {
        section.Add(line, oldPath, newPath, open.value, displayPath);
        open := Some(AddLine(open.value, line, displayPath));
      }
    }
    assert pieces[|pieces|..] == [];
    JoinFlushed(open);
    if section != null && section.hasSubstantiveLine { rewritten := rewritten + section.bytes; }
  }

  lemma {:induction false} NothingYet(s: seq<Byte>)
    ensures [] + s == s
  {
  }

  lemma {:induction false} JoinFlushed(s: Option<Sect>)
    ensures Join(Flushed(s)) == if s.Some? && s.value.substantive then Join(s.value.lines) else []
  {
  }

  // One piece moves from what is to come to what is written or to the open section.
  lemma {:induction false} TakeOne(s: Option<Sect>, pieces: seq<seq<Byte>>, i: nat, path: seq<Byte>, written: seq<Byte>)
    requires i < |pieces|
    ensures StartsPiece(pieces[i]) ==>
              written + Join(Rest(s, pieces[i..], path)) == written + Join(Flushed(s)) + Join(Rest(Some(NewSect(pieces[i], path)), pieces[i + 1..], path))
    ensures !StartsPiece(pieces[i]) && s.None? ==>
              written + Join(Rest(s, pieces[i..], path)) == written + pieces[i] + Join(Rest(s, pieces[i + 1..], path))
    ensures !StartsPiece(pieces[i]) && s.Some? ==>
              Rest(s, pieces[i..], path) == Rest(Some(AddLine(s.value, pieces[i], path)), pieces[i + 1..], path)
  {
    hide Join, Flushed, NewSect, AddLine, StartsPiece;
    assert pieces[i..][1..] == pieces[i + 1..];
    JoinConcat(Flushed(s), Rest(Some(NewSect(pieces[i], path)), pieces[i + 1..], path));
    JoinConcat([pieces[i]], Rest(None, pieces[i + 1..], path));
    JoinOne(pieces[i]);
  }
}

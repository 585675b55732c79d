// Parsed patches: the values the parser builds, and its line, header and row rules.
module PatchModel {
  import opened Wrappers
  import opened Utf8
  import opened GitPaths

  const U32_MAX := 0xFFFF_FFFF
  // A Rust allocation holds at most this many bytes.
  const ISIZE_MAX := 0x7FFF_FFFF_FFFF_FFFF

  function SatAdd(a: nat, b: nat): nat {
    if a + b <= USIZE_MAX then a + b else USIZE_MAX
  }

  function SatSub(a: nat, b: nat): nat {
    if a < b then 0 else a - b
  }

  // `OldLineNumber::new` and `NewLineNumber::new`
  function Clamp(line: nat): nat {
    if line <= U32_MAX then line else U32_MAX
  }

  // ---- lines ----

  const NEWLINE: Byte := 10
  const RETURN: Byte := 13

  datatype Line = Line(start: nat, bytes: seq<Byte>)

  // Index of the first newline in raw[lo..hi], hi when there is none.
  function LineEnd(raw: seq<Byte>, lo: nat, hi: nat): (e: nat)
    requires lo <= hi <= |raw|
    ensures lo <= e <= hi && (e < hi ==> raw[e] == NEWLINE)
    ensures forall k :: lo <= k < e ==> raw[k] != NEWLINE
    decreases hi - lo
  {
    if lo == hi || raw[lo] == NEWLINE then lo else LineEnd(raw, lo + 1, hi)
  }

  // `patch_byte_lines` of raw[lo..hi], with positions in `raw`.
  function Lines(raw: seq<Byte>, lo: nat, hi: nat): (r: seq<Line>)
    requires lo <= hi <= |raw|
    decreases hi - lo
  {
    if lo == hi then []
    else
      var e := LineEnd(raw, lo, hi);
      [Line(lo, raw[lo..e])] + Lines(raw, if e < hi then e + 1 else hi, hi)
  }

  // `patch_header_bytes`
  function WithoutReturn(bytes: seq<Byte>): seq<Byte> {
    if bytes != [] && bytes[|bytes| - 1] == RETURN then bytes[..|bytes| - 1] else bytes
  }

  function Header(line: Line): seq<Byte> {
    WithoutReturn(line.bytes)
  }

  // The line is a slice of the patch.
  predicate InPatch(raw: seq<Byte>, line: Line) {
    line.start + |line.bytes| <= |raw| && raw[line.start..line.start + |line.bytes|] == line.bytes
  }

  predicate AllInPatch(raw: seq<Byte>, lines: seq<Line>) {
    |raw| <= ISIZE_MAX && forall k :: 0 <= k < |lines| ==> InPatch(raw, lines[k])
  }

  lemma {:induction false} LinesInPatch(raw: seq<Byte>, lo: nat, hi: nat)
    requires lo <= hi <= |raw|
    ensures |Lines(raw, lo, hi)| <= hi - lo && forall k :: 0 <= k < |Lines(raw, lo, hi)| ==> InPatch(raw, Lines(raw, lo, hi)[k])
    decreases hi - lo
  {
    if lo < hi {
      var e := LineEnd(raw, lo, hi);
      LinesInPatch(raw, if e < hi then e + 1 else hi, hi);
    }
  }

  // ---- row text ----

  // A row's text: a span of the patch, or a copy when positions outgrow 32 bits.
  datatype RowText = Owned(text: seq<Byte>) | Span(backing: seq<Byte>, offset: nat, len: nat)

  // `slice.get(a..b).unwrap_or_default()`
  function Slice(raw: seq<Byte>, a: nat, b: nat): seq<Byte> {
    if a <= b <= |raw| then raw[a..b] else []
  }

  // `DiffLineText::span_within`
  function SpanWithin(backing: seq<Byte>, offset: nat, len: nat, max: nat): RowText {
    if len <= max && offset <= max then Span(backing, offset, len)
    else if len <= max then Span(Slice(backing, offset, SatAdd(offset, len)), 0, len)
    else Owned(Lossy(Slice(backing, offset, SatAdd(offset, len))))
  }

  // `DiffLineText::as_bytes`
  function TextBytes(t: RowText): seq<Byte> {
    match t
    case Owned(text) => text
    case Span(backing, offset, len) =>
      var end := SatAdd(offset, len);
      Slice(backing, offset, if end < |backing| then end else |backing|)
  }

  // What a row shows of its bytes: all of them, unless a single row outgrows 32 bits.
  function ExactText(bytes: seq<Byte>, max: nat): seq<Byte> {
    if |bytes| <= max then bytes else Lossy(bytes)
  }

  lemma {:induction false} SpanIsExact(backing: seq<Byte>, offset: nat, len: nat, max: nat)
    requires offset + len <= |backing| <= USIZE_MAX
    ensures TextBytes(SpanWithin(backing, offset, len, max)) == ExactText(backing[offset..offset + len], max)
  {
  }

  // ---- rows, hunks and files ----

  datatype Row =
    | Context(oldLine: nat, newLine: nat, text: RowText)
    | Addition(newLine: nat, text: RowText)
    | Deletion(oldLine: nat, text: RowText)
    | Meta(text: RowText)

  datatype Ranges = Ranges(oldStart: nat, oldCount: nat, newStart: nat, newCount: nat)
  datatype Hunk = Hunk(header: seq<Byte>, ranges: Ranges, lines: seq<Row>)
  datatype Body = Text(hunks: seq<Hunk>) | Binary

  datatype FileStatus = Modified | Added | Deleted | Renamed | Copied | TypeChanged | Unknown
  datatype FileChange =
    | ModifiedFile(oldPath: seq<Byte>, newPath: seq<Byte>)
    | AddedFile(path: seq<Byte>)
    | DeletedFile(path: seq<Byte>)
    | RenamedFile(oldPath: seq<Byte>, newPath: seq<Byte>)
    | CopiedFile(oldPath: seq<Byte>, newPath: seq<Byte>)
    | TypeChangedFile(oldPath: seq<Byte>, newPath: seq<Byte>)
    | UnknownFile(maybeOld: Option<seq<Byte>>, maybeNew: Option<seq<Byte>>)
  datatype DiffFile = DiffFile(change: FileChange, additions: nat, deletions: nat, body: Body)

  // `FileChange::from_status`
  function ChangeOf(status: FileStatus, o: Option<seq<Byte>>, n: Option<seq<Byte>>): FileChange {
    match status
    case Modified =>
      if o.Some? && n.Some? then ModifiedFile(o.value, n.value)
      else if o.Some? then ModifiedFile(o.value, o.value)
      else if n.Some? then ModifiedFile(n.value, n.value)
      else UnknownFile(None, None)
    case Added => if n.Some? then AddedFile(n.value) else UnknownFile(o, None)
    case Deleted => if o.Some? then DeletedFile(o.value) else UnknownFile(None, n)
    case Renamed => if o.Some? && n.Some? then RenamedFile(o.value, n.value) else UnknownFile(o, n)
    case Copied => if o.Some? && n.Some? then CopiedFile(o.value, n.value) else UnknownFile(o, n)
    case TypeChanged =>
      if o.Some? && n.Some? then TypeChangedFile(o.value, n.value)
      else if o.Some? then TypeChangedFile(o.value, o.value)
      else if n.Some? then TypeChangedFile(n.value, n.value)
      else UnknownFile(None, None)
    case Unknown => UnknownFile(o, n)
  }

  function OldPath(c: FileChange): Option<seq<Byte>> {
    match c
    case AddedFile(_) => None
    case DeletedFile(path) => Some(path)
    case UnknownFile(o, _) => o
    case _ => Some(c.oldPath)
  }

  function NewPath(c: FileChange): Option<seq<Byte>> {
    match c
    case AddedFile(path) => Some(path)
    case DeletedFile(_) => None
    case UnknownFile(_, n) => n
    case _ => Some(c.newPath)
  }

  // A change shows the sides it was given: both, but for the missing side of an added or
  // deleted file; a lone side stands for both of a file that stayed where it was, and is
  // never lost.
  lemma {:induction false} ChangeKeepsSides(status: FileStatus, o: Option<seq<Byte>>, n: Option<seq<Byte>>)
    ensures var c := ChangeOf(status, o, n);
            && (o.Some? && n.Some? ==>
                  && OldPath(c) == (if status == Added then None else o)
                  && NewPath(c) == (if status == Deleted then None else n))
            && (o.None? && n.None? ==> OldPath(c).None? && NewPath(c).None?)
            && (o.Some? && n.None? ==>
                  && OldPath(c) == o
                  && NewPath(c) == (if status == Modified || status == TypeChanged then o else None))
            && (o.None? && n.Some? ==>
                  && NewPath(c) == n
                  && OldPath(c) == (if status == Modified || status == TypeChanged then n else None))
  {
  }

  function Hunks(f: DiffFile): seq<Hunk> {
    if f.body.Text? then f.body.hunks else []
  }

  // ---- hunk headers ----

  // `str::parse::<usize>`
  function ParseDigits(s: seq<Byte>, value: nat): Option<nat> {
    if s == [] then Some(value)
    else if !(48 <= s[0] <= 57) || value * 10 + (s[0] - 48) > USIZE_MAX then None
    else ParseDigits(s[1..], value * 10 + (s[0] - 48))
  }

  function ParseUsize(s: seq<Byte>): (r: Option<nat>)
    ensures r.Some? ==> r.value <= USIZE_MAX
  {
    var digits := if s != [] && s[0] == 43 then s[1..] else s;
    if digits == [] then None else (ParseBounded(digits, 0); ParseDigits(digits, 0))
  }

  lemma {:induction false} ParseBounded(s: seq<Byte>, value: nat)
    requires value <= USIZE_MAX
    ensures ParseDigits(s, value).Some? ==> ParseDigits(s, value).value <= USIZE_MAX
    decreases |s|
  {
    if s != [] && 48 <= s[0] <= 57 && value * 10 + (s[0] - 48) <= USIZE_MAX {
      ParseBounded(s[1..], value * 10 + (s[0] - 48));
    }
  }

  const COMMA: Byte := 44

  function Or(o: Option<nat>, default: nat): nat {
    if o.Some? then o.value else default
  }

  // `parse_hunk_range`: start and count, 0 and 1 where they cannot be read.
  function HunkRange(range: seq<Byte>): (r: (nat, nat))
    ensures r.0 <= USIZE_MAX && r.1 <= USIZE_MAX
  {
    var first := UpTo(range, COMMA);
    (Or(ParseUsize(first), 0), if |first| == |range| then 1 else Or(ParseUsize(range[|first| + 1..]), 1))
  }

  function SkipWord(s: seq<Byte>): (r: seq<Byte>)
    ensures |r| <= |s|
  {
    var t := TrimStart(s);
    t[WordLength(t)..]
  }

  function FirstWord(s: seq<Byte>): seq<Byte> {
    var t := TrimStart(s);
    t[..WordLength(t)]
  }

  // `parse_hunk_header`: the second word is the old range, the third the new one.
  function HunkHeader(header: seq<Byte>): (r: Ranges)
    ensures r.oldStart <= USIZE_MAX && r.oldCount <= USIZE_MAX && r.newStart <= USIZE_MAX && r.newCount <= USIZE_MAX
  {
    var rest := SkipWord(header);
    var old_, new_ := FirstWord(rest), FirstWord(SkipWord(rest));
    var o := HunkRange(TrimMatches(if old_ == [] then Bytes("-0,0") else old_, Bytes("-")));
    var n := HunkRange(TrimMatches(if new_ == [] then Bytes("+0,0") else new_, Bytes("+")));
    Ranges(o.0, o.1, n.0, n.1)
  }

  // ---- builders ----

  datatype FileBuilder = FileBuilder(oldPath: Option<seq<Byte>>, newPath: Option<seq<Byte>>, status: FileStatus,
                                     hunks: seq<Hunk>, additions: nat, deletions: nat, binary: bool)

  datatype HunkBuilder = HunkBuilder(header: seq<Byte>, ranges: Ranges, oldLine: nat, newLine: nat,
                                     additions: nat, deletions: nat, lines: seq<Row>)

  function StartHunk(header: seq<Byte>): HunkBuilder {
    var r := HunkHeader(header);
    HunkBuilder(header, Ranges(Clamp(r.oldStart), r.oldCount, Clamp(r.newStart), r.newCount), r.oldStart, r.newStart, 0, 0, [])
  }

  function Complete(h: HunkBuilder): bool {
    && SatSub(h.oldLine, h.ranges.oldStart) >= h.ranges.oldCount
    && SatSub(h.newLine, h.ranges.newStart) >= h.ranges.newCount
  }

  const NO_NEWLINE := Bytes("\\ No newline at end of file")

  function PushContext(h: HunkBuilder, raw: seq<Byte>, offset: nat, len: nat): HunkBuilder {
    h.(oldLine := SatAdd(h.oldLine, 1), newLine := SatAdd(h.newLine, 1),
       lines := h.lines + [Context(Clamp(h.oldLine), Clamp(h.newLine), SpanWithin(raw, offset, len, U32_MAX))])
  }

  // `push_line_span`
  function PushRow(h: HunkBuilder, raw: seq<Byte>, line: Line): HunkBuilder {
    var b := line.bytes;
    if b == [] then PushContext(h, raw, line.start, 0)
    else if b[0] == 43 then
      h.(newLine := SatAdd(h.newLine, 1), additions := SatAdd(h.additions, 1),
         lines := h.lines + [Addition(Clamp(h.newLine), SpanWithin(raw, SatAdd(line.start, 1), |b| - 1, U32_MAX))])
    else if b[0] == 45 then
      h.(oldLine := SatAdd(h.oldLine, 1), deletions := SatAdd(h.deletions, 1),
         lines := h.lines + [Deletion(Clamp(h.oldLine), SpanWithin(raw, SatAdd(line.start, 1), |b| - 1, U32_MAX))])
    else if b[0] == SPACE then PushContext(h, raw, SatAdd(line.start, 1), |b| - 1)
    else if b[0] == BACKSLASH then
      if NO_NEWLINE <= b then h else h.(lines := h.lines + [Meta(SpanWithin(raw, line.start, |b|, U32_MAX))])
    else PushContext(h, raw, line.start, |b|)
  }

  function FinishHunkBuilder(h: HunkBuilder): Hunk {
    Hunk(h.header, h.ranges, h.lines)
  }

  const NEW_FILE := Bytes("new file mode ")
  const DELETED_FILE := Bytes("deleted file mode ")
  const RENAME_FROM := Bytes("rename from ")
  const RENAME_TO := Bytes("rename to ")
  const COPY_FROM := Bytes("copy from ")
  const COPY_TO := Bytes("copy to ")
  const OLD_MODE := Bytes("old mode ")
  const NEW_MODE := Bytes("new mode ")
  const BINARY_FILES := Bytes("Binary files ")
  const BINARY_PATCH := Bytes("GIT binary patch")
  const MINUS := Bytes("--- ")
  const PLUS := Bytes("+++ ")
  const AT := Bytes("@@ ")

  function StartFile(paths: (Option<seq<Byte>>, Option<seq<Byte>>)): FileBuilder {
    FileBuilder(paths.0, paths.1, Modified, [], 0, 0, false)
  }

  // The binary marker, the same test in the parser and in the stat counter.
  predicate BinaryMarker(line: seq<Byte>) {
    BINARY_FILES <= line || line == BINARY_PATCH
  }

  // A header line that says something other than a side's path.
  predicate StatusLine(line: seq<Byte>) {
    NEW_FILE <= line || DELETED_FILE <= line || RENAME_FROM <= line || RENAME_TO <= line || COPY_FROM <= line || COPY_TO <= line
    || OLD_MODE <= line || NEW_MODE <= line
  }

  function ApplyStatus(f: FileBuilder, line: seq<Byte>): FileBuilder {
    if NEW_FILE <= line then f.(status := Added)
    else if DELETED_FILE <= line then f.(status := Deleted)
    else if RENAME_FROM <= line then f.(status := Renamed, oldPath := Some(MetadataPath(TrimMatches(line, RENAME_FROM))))
    else if RENAME_TO <= line then f.(status := Renamed, newPath := Some(MetadataPath(TrimMatches(line, RENAME_TO))))
    else if COPY_FROM <= line then f.(status := Copied, oldPath := Some(MetadataPath(TrimMatches(line, COPY_FROM))))
    else if COPY_TO <= line then f.(status := Copied, newPath := Some(MetadataPath(TrimMatches(line, COPY_TO))))
    else if f.status == Renamed || f.status == Copied then f
    else f.(status := TypeChanged)
  }

  // `apply_header`
  function ApplyHeader(f: FileBuilder, line: seq<Byte>): FileBuilder {
    if StatusLine(line) then ApplyStatus(f, line)
    else if BinaryMarker(line) then f.(binary := true)
    else if MINUS <= line then
      var path := UnifiedPath(line[|MINUS|..]);
      if path == DEV_NULL then f.(status := Added, oldPath := None) else f.(oldPath := Some(StripSide(path, A_SIDE)))
    else if PLUS <= line then
      var path := UnifiedPath(line[|PLUS|..]);
      if path == DEV_NULL then f.(status := Deleted, newPath := None) else f.(newPath := Some(StripSide(path, B_SIDE)))
    else f
  }

  function FinishFileBuilder(f: FileBuilder): DiffFile {
    DiffFile(ChangeOf(f.status, f.oldPath, f.newPath), f.additions, f.deletions, if f.binary then Binary else Text(f.hunks))
  }
}

// Paths in patch headers: quoting as the rewriter writes it, and the parsers' side.
// Text is the bytes of a Rust `str`.
module GitPaths {
  import opened Wrappers
  import opened Utf8

  const QUOTE: Byte := 34
  const BACKSLASH: Byte := 92
  const SPACE: Byte := 32
  const TAB: Byte := 9

  const DIFF_GIT := Bytes("diff --git ")
  const A_SIDE := Bytes("a/")
  const B_SIDE := Bytes("b/")
  const DEV_NULL := Bytes("/dev/null")

  // `strip_prefix_path`
  function StripSide(path: seq<Byte>, prefix: seq<Byte>): seq<Byte> {
    if prefix <= path then path[|prefix|..] else path
  }

  // ---- writing: `git_patch_path` and `quote_git_path` ----

  predicate Graphic(b: Byte) {
    33 <= b <= 126
  }

  predicate Plain(path: seq<Byte>) {
    forall k :: 0 <= k < |path| ==> Graphic(path[k]) && path[k] != QUOTE && path[k] != BACKSLASH
  }

  function Octal(b: Byte): seq<Byte> {
    [BACKSLASH, 48 + b / 64, 48 + b / 8 % 8, 48 + b % 8]
  }

  function QuoteByte(b: Byte): seq<Byte> {
    if b == 10 then [BACKSLASH, 110]
    else if b == 13 then [BACKSLASH, 114]
    else if b == TAB then [BACKSLASH, 116]
    else if b == BACKSLASH then [BACKSLASH, BACKSLASH]
    else if b == QUOTE then [BACKSLASH, QUOTE]
    else if Graphic(b) || b == SPACE then [b]
    else Octal(b)
  }

  function QuoteBytes(path: seq<Byte>): seq<Byte> {
    if path == [] then [] else QuoteBytes(path[..|path| - 1]) + QuoteByte(path[|path| - 1])
  }

  function Quote(path: seq<Byte>): seq<Byte> {
    if Plain(path) then path else [QUOTE] + QuoteBytes(path) + [QUOTE]
  }

  function PatchPath(prefix: seq<Byte>, path: seq<Byte>): seq<Byte> {
    Quote(prefix + path)
  }

  // ---- reading: `parse_quoted_git_path_token` ----

  predicate OctalDigit(b: Byte) {
    48 <= b <= 55
  }

  // Up to three octal digits from `index`: the value so far and where they end.
  function OctalRun(s: seq<Byte>, index: nat, left: nat, value: nat): (r: (nat, nat))
    requires index <= |s|
    ensures index <= r.1 <= |s|
    decreases left
  {
    if left == 0 || index == |s| || !OctalDigit(s[index]) then (value, index)
    else OctalRun(s, index + 1, left - 1, value * 8 + (s[index] - 48))
  }

  // One escape after the backslash: the bytes it stands for and where it ends.
  function Escape(s: seq<Byte>, index: nat): (r: Option<(seq<Byte>, nat)>)
    requires index <= |s|
    ensures r.Some? ==> index < r.value.1 <= |s|
  {
    if index == |s| then None
    else
      var b := s[index];
      if b == 97 then Some(([7], index + 1))
      else if b == 98 then Some(([8], index + 1))
      else if b == 102 then Some(([12], index + 1))
      else if b == 110 then Some(([10], index + 1))
      else if b == 114 then Some(([13], index + 1))
      else if b == 116 then Some(([9], index + 1))
      else if b == 118 then Some(([11], index + 1))
      else if OctalDigit(b) then
        var (value, end) := OctalRun(s, index, 3, 0);
        assert index < end by { assert OctalRun(s, index, 3, 0) == OctalRun(s, index + 1, 2, b - 48); }
        Some((if value < 256 then [value] else REPLACEMENT, end))
      else if b < 128 then Some(([b], index + 1))
      else
        var n := CharLength(s[index..]);
        if n == 0 then None else Some((s[index..index + n], index + n))
  }

  // From `index` to the closing quote: the decoded bytes and where the quote is.
  function Unescape(s: seq<Byte>, index: nat): (r: Option<(seq<Byte>, nat)>)
    requires index <= |s|
    ensures r.Some? ==> index <= r.value.1 < |s|
    decreases |s| - index
  {
    if index == |s| then None
    else if s[index] == QUOTE then Some(([], index))
    else if s[index] == BACKSLASH then
      match Escape(s, index + 1)
      case None => None
      case Some((bytes, end)) =>
        (match Unescape(s, end)
         case None => None
         case Some((rest, close)) => Some((bytes + rest, close)))
    else
      match Unescape(s, index + 1)
      case None => None
      case Some((rest, close)) => Some(([s[index]] + rest, close))
  }

  // A quoted token and the text after it.
  function QuotedToken(s: seq<Byte>): Option<(seq<Byte>, seq<Byte>)> {
    if s == [] || s[0] != QUOTE then None
    else
      match Unescape(s, 1)
      case None => None
      case Some((bytes, close)) => Some((Lossy(bytes), s[close + 1..]))
  }

  // ---- the headers ----

  // `split_diff_git_paths`: the first " b/" that leaves the same path on both sides,
  // otherwise the last one that leaves an "a/" and a "b/" side.
  function SplitSides(paths: seq<Byte>, i: nat, fallback: Option<nat>): Option<nat>
    decreases |paths| - i
  {
    if i + 3 > |paths| then fallback
    else if paths[i..i + 3] == [SPACE] + B_SIDE && A_SIDE <= paths[..i] then
      if paths[..i][2..] == paths[i + 3..] then Some(i) else SplitSides(paths, i + 1, Some(i))
    else SplitSides(paths, i + 1, fallback)
  }

  // `diff_git_paths`
  function DiffGitPaths(line: seq<Byte>): (Option<seq<Byte>>, Option<seq<Byte>>) {
    if !(DIFF_GIT <= line) then (None, None)
    else
      var paths := line[|DIFF_GIT|..];
      var both := QuotedSides(paths);
      if both.Some? then (Some(StripSide(both.value.0, A_SIDE)), Some(StripSide(both.value.1, B_SIDE)))
      else
        match SplitSides(paths, 0, None)
        case None => (None, None)
        case Some(i) =>
          if i < |paths| then (Some(StripSide(paths[..i], A_SIDE)), Some(StripSide(paths[i + 1..], B_SIDE))) else (None, None)
  }

  function QuotedSides(paths: seq<Byte>): Option<(seq<Byte>, seq<Byte>)> {
    match QuotedToken(paths)
    case None => None
    case Some((a, rest)) =>
      match QuotedToken(TrimStart(rest))
      case None => None
      case Some((b, trailing)) => if TrimStart(trailing) == [] then Some((a, b)) else None
  }

  function UpTo(s: seq<Byte>, b: Byte): (r: seq<Byte>)
    ensures |r| <= |s| && s[..|r|] == r
  {
    if s == [] || s[0] == b then [] else [s[0]] + UpTo(s[1..], b)
  }

  // `unified_header_path`
  function UnifiedPath(path: seq<Byte>): seq<Byte> {
    match QuotedToken(path)
    case Some((p, _)) => p
    case None => UpTo(path, TAB)
  }

  // `git_metadata_path`
  function MetadataPath(path: seq<Byte>): seq<Byte> {
    match QuotedToken(path)
    case Some((p, trailing)) => if TrimStart(trailing) == [] then p else path
    case None => path
  }

  function TrimMatches(s: seq<Byte>, prefix: seq<Byte>): seq<Byte>
    decreases |s|
  {
    if prefix != [] && prefix <= s then TrimMatches(s[|prefix|..], prefix) else s
  }
}

// Quoting and reading git paths undo each other, and the loops that do both.
module PathRoundTrip {
  import opened Wrappers
  import opened Utf8
  import opened GitPaths
  import opened PatchModel
  import opened HeaderLines

  // ---- the quoter's loop ----

  // `quote_git_path`
  method QuoteGitPath(path: seq<Byte>) returns (quoted: seq<Byte>)
    ensures quoted == Quote(path)
  {
    var plain := true;
    for i := 0 to |path|
      invariant plain <==> Plain(path[..i])
    {
      assert path[..i + 1] == path[..i] + [path[i]];
      plain := plain && 33 <= path[i] <= 126 && path[i] != QUOTE && path[i] != BACKSLASH;
    }
    assert path[..|path|] == path;
    if plain { return path; }
    quoted := [QUOTE];
    for i := 0 to |path|
      invariant quoted == [QUOTE] + QuoteBytes(path[..i])
    {
      hide QuoteBytes;
      var b, pushed := path[i], [];
      if b == 10 { pushed := [BACKSLASH, 110]; }
      else if b == 13 { pushed := [BACKSLASH, 114]; }
      else if b == TAB { pushed := [BACKSLASH, 116]; }
      else if b == BACKSLASH { pushed := [BACKSLASH, BACKSLASH]; }
      else if b == QUOTE { pushed := [BACKSLASH, QUOTE]; }
      else if 33 <= b <= 126 || b == SPACE { pushed := [b]; }
      else { pushed := Octal(b); }
      assert pushed == QuoteByte(b);
      PushQuoted(path, i, quoted);
      quoted := quoted + pushed;
    }
    assert path[..|path|] == path;
    quoted := quoted + [QUOTE];
  }

  lemma {:induction false} PushQuoted(path: seq<Byte>, i: nat, quoted: seq<Byte>)
    requires i < |path| && quoted == [QUOTE] + QuoteBytes(path[..i])
    ensures quoted + QuoteByte(path[i]) == [QUOTE] + QuoteBytes(path[..i + 1])
  {
    hide QuoteByte;
    assert path[..i + 1][..i] == path[..i];
  }

  // ---- the reader's loops ----

  // `push_octal_escape`
  method PushOctalEscape(s: seq<Byte>, at: nat, output: seq<Byte>) returns (index: nat, out: seq<Byte>)
    requires at < |s| && OctalDigit(s[at])
    ensures at < index <= |s| && Escape(s, at).Some? && index == Escape(s, at).value.1 && out == output + Escape(s, at).value.0
  {
    var value: nat := 0;
    index := at;
    var turn := 0;
    while turn < 3
      invariant turn <= 3 && at <= index <= |s|
      invariant OctalRun(s, index, 3 - turn, value) == OctalRun(s, at, 3, 0)
      invariant turn == 0 ==> index == at
      invariant turn > 0 ==> at < index
    {
      if index == |s| || !OctalDigit(s[index]) { break; }
      value := value * 8 + (s[index] - 48);
      index := index + 1;
      turn := turn + 1;
    }
    out := output + if value < 256 then [value] else REPLACEMENT;
  }

  // `parse_git_path_escape`
  method ParseEscape(s: seq<Byte>, at: nat, output: seq<Byte>) returns (ok: bool, index: nat, out: seq<Byte>)
    requires at <= |s|
    ensures if Escape(s, at).None? then !ok else ok && at < index <= |s| && out == output + Escape(s, at).value.0 && index == Escape(s, at).value.1
  {
    ok, index, out := true, at + 1, output;
    if at == |s| { return false, at, output; }
    var b := s[at];
    if b == 97 { out := output + [7]; }
    else if b == 98 { out := output + [8]; }
    else if b == 102 { out := output + [12]; }
    else if b == 110 { out := output + [10]; }
    else if b == 114 { out := output + [13]; }
    else if b == 116 { out := output + [9]; }
    else if b == 118 { out := output + [11]; }
    else if OctalDigit(b) {
      index, out := PushOctalEscape(s, at, output);
    } else if b < 128 { out := output + [b]; }
    else {
      var n := CharLength(s[at..]);
      if n == 0 { return false, at, output; }
      index, out := at + n, output + s[at..at + n];
    }
  }

  // `parse_quoted_git_path_token`
  method ParseQuotedToken(s: seq<Byte>) returns (token: Option<(seq<Byte>, seq<Byte>)>)
    ensures token == QuotedToken(s)
  {
    hide Escape, Lossy;
    if s == [] || s[0] != QUOTE { return None; }
    var output: seq<Byte> := [];
    var index := 1;
    ghost var whole := Unescape(s, 1);
    Prepend([], [], whole);
    while index < |s|
      invariant 1 <= index <= |s|
      invariant whole == Prepended(output, Unescape(s, index))
      decreases |s| - index
    {
      var b := s[index];
      if b == QUOTE {
        assert output + [] == output;
        return Some((Lossy(output), s[index + 1..]));
      } else if b == BACKSLASH {
        var ok, after, out := ParseEscape(s, index + 1, output);
        if !ok { return None; }
        Prepend(output, Escape(s, index + 1).value.0, Unescape(s, after));
        index, output := after, out;
      } else {
        Prepend(output, [b], Unescape(s, index + 1));
        index, output := index + 1, output + [b];
      }
    }
    token := None;
  }

  function Prepended(head: seq<Byte>, r: Option<(seq<Byte>, nat)>): Option<(seq<Byte>, nat)> {
    match r case None => None case Some((bytes, close)) => Some((head + bytes, close))
  }

  lemma {:induction false} Prepend(a: seq<Byte>, b: seq<Byte>, r: Option<(seq<Byte>, nat)>)
    ensures Prepended(a, Prepended(b, r)) == Prepended(a + b, r)
    ensures Prepended([], r) == r
  {
    match r
    case None =>
    case Some((bytes, close)) =>
      assert a + (b + bytes) == (a + b) + bytes;
      assert [] + bytes == bytes;
  }

  // ---- reading what was quoted ----

  lemma {:induction false} QuoteConcat(p: seq<Byte>, q: seq<Byte>)
    ensures QuoteBytes(p + q) == QuoteBytes(p) + QuoteBytes(q)
    decreases |q|
  {
    hide QuoteByte;
    if q == [] {
      assert p + q == p;
    } else {
      var n := |q| - 1;
      QuoteConcat(p, q[..n]);
      assert (p + q)[..|p + q| - 1] == p + q[..n];
      assert (p + q)[|p + q| - 1] == q[n];
    }
  }

  lemma {:induction false} QuoteCons(q: seq<Byte>)
    requires q != []
    ensures QuoteBytes(q) == QuoteByte(q[0]) + QuoteBytes(q[1..])
  {
    hide QuoteByte;
    QuoteConcat([q[0]], q[1..]);
    assert [q[0]] + q[1..] == q;
    QuoteOne(q[0]);
  }

  lemma {:induction false} QuoteOne(b: Byte)
    ensures QuoteBytes([b]) == QuoteByte(b)
  {
    hide QuoteByte;
    assert [b][..0] == [];
  }

  // Three octal digits give their byte back.
  lemma {:induction false} OctalBack(s: seq<Byte>, i: nat, b: Byte)
    requires i + 4 <= |s| && s[i..i + 4] == Octal(b)
    ensures Escape(s, i + 1) == Some(([b], i + 4))
  {
    var o := s[i..i + 4];
    assert s[i + 1] == o[1] && s[i + 2] == o[2] && s[i + 3] == o[3];
    var x, y, z := b / 64, b / 8 % 8, b % 8;
    assert x * 64 + y * 8 + z == b;
    assert OctalRun(s, i + 4, 0, b) == (b, i + 4);
    assert OctalRun(s, i + 3, 1, x * 8 + y) == (b, i + 4);
    assert OctalRun(s, i + 2, 2, x) == (b, i + 4);
    assert OctalRun(s, i + 1, 3, 0) == (b, i + 4);
  }

  // One quoted byte reads back as that byte.
  lemma {:induction false} UnescapeByte(s: seq<Byte>, i: nat, b: Byte)
    requires i + |QuoteByte(b)| <= |s| && s[i..i + |QuoteByte(b)|] == QuoteByte(b)
    ensures 0 < |QuoteByte(b)| && Unescape(s, i) == Prepended([b], Unescape(s, i + |QuoteByte(b)|))
  {
    var q := QuoteByte(b);
    assert s[i] == s[i..i + |q|][0] == q[0];
    if q == Octal(b) && |q| == 4 {
      OctalBack(s, i, b);
    } else if |q| == 2 {
      assert s[i + 1] == s[i..i + 2][1] == q[1];
    }
  }

  // The quoted bytes of `p`, the closing quote and what follows.
  function QuotedRest(p: seq<Byte>, tail: seq<Byte>): seq<Byte> {
    QuoteBytes(p) + ([QUOTE] + tail)
  }

  lemma {:induction false} QuotedRestCons(p: seq<Byte>, tail: seq<Byte>)
    requires p != []
    ensures QuotedRest(p, tail) == QuoteByte(p[0]) + QuotedRest(p[1..], tail)
  {
    hide QuoteByte, QuoteBytes;
    QuoteCons(p);
  }

  lemma {:induction false} SliceHead(s: seq<Byte>, i: nat, a: seq<Byte>, rest: seq<Byte>)
    requires i <= |s| && s[i..] == a + rest
    ensures i + |a| <= |s| && s[i..i + |a|] == a && s[i + |a|..] == rest
  {
    assert |s[i..]| == |s| - i;
    assert s[i..i + |a|] == s[i..][..|a|];
    assert s[i + |a|..] == s[i..][|a|..];
  }

  // From i the reader finds `p`, the quote at `close` and then `tail`.
  predicate Reads(s: seq<Byte>, i: nat, p: seq<Byte>, tail: seq<Byte>, close: nat)
    requires i <= |s|
  {
    Unescape(s, i) == Some((p, close)) && close < |s| && s[close + 1..] == tail
  }

  lemma {:induction false} ClosingQuote(s: seq<Byte>, i: nat, tail: seq<Byte>)
    requires i <= |s| && s[i..] == QuotedRest([], tail)
    ensures i < |s| && Unescape(s, i) == Some(([], i)) && s[i + 1..] == tail
  {
    SliceHead(s, i, [QUOTE], tail);
    assert s[i] == s[i..i + 1][0];
  }

  // Everything up to the closing quote reads back.
  lemma {:induction false} UnescapeQuoted(s: seq<Byte>, i: nat, p: seq<Byte>, tail: seq<Byte>)
    requires i <= |s| && s[i..] == QuotedRest(p, tail)
    ensures exists close: nat :: Reads(s, i, p, tail, close)
    decreases |p|
  {
    hide QuoteByte, QuoteBytes, QuotedRest, Unescape;
    if p == [] {
      ClosingQuote(s, i, tail);
      assert Reads(s, i, p, tail, i);
    } else {
      QuotedRestCons(p, tail);
      SliceHead(s, i, QuoteByte(p[0]), QuotedRest(p[1..], tail));
      var j := i + |QuoteByte(p[0])|;
      UnescapeByte(s, i, p[0]);
      UnescapeQuoted(s, j, p[1..], tail);
      var close: nat :| Reads(s, j, p[1..], tail, close);
      HeadTail(p);
      assert Reads(s, i, p, tail, close);
    }
  }

  lemma {:induction false} HeadTail(p: seq<Byte>)
    requires p != []
    ensures [p[0]] + p[1..] == p
  {
  }

  // A quoted path, whatever follows it, reads back as the path and what follows.
  lemma {:induction false} QuotedTokenBack(p: seq<Byte>, rest: seq<Byte>)
    requires ValidUtf8(p) && !Plain(p)
    ensures QuotedToken(Quote(p) + rest) == Some((p, rest))
  {
    hide Lossy, ValidUtf8, QuoteBytes, Unescape, Plain;
    var s := Quote(p) + rest;
    assert s[1..] == QuotedRest(p, rest);
    UnescapeQuoted(s, 1, p, rest);
    LossyKeepsValid(p);
  }

  // ---- the headers ----

  lemma {:induction false} SidesOf(p: seq<Byte>)
    requires ValidUtf8(p)
    ensures ValidUtf8(A_SIDE + p) && ValidUtf8(B_SIDE + p)
    ensures Plain(A_SIDE + p) <==> Plain(p)
    ensures Plain(B_SIDE + p) <==> Plain(p)
  {
    assert Ascii(A_SIDE) && Ascii(B_SIDE) && Plain(A_SIDE) && Plain(B_SIDE);
    AsciiIsValid(A_SIDE);
    AsciiIsValid(B_SIDE);
    hide ValidUtf8;
    ValidConcat(A_SIDE, p);
    ValidConcat(B_SIDE, p);
    PlainConcat(A_SIDE, p);
    PlainConcat(B_SIDE, p);
  }

  lemma {:induction false} PlainConcat(a: seq<Byte>, b: seq<Byte>)
    ensures Plain(a + b) <==> Plain(a) && Plain(b)
  {
    var s := a + b;
    assert forall k :: 0 <= k < |a| ==> s[k] == a[k];
    assert forall k :: 0 <= k < |b| ==> s[|a| + k] == b[k];
  }

  lemma {:induction false} UpToAll(s: seq<Byte>, b: Byte)
    requires b !in s
    ensures UpTo(s, b) == s
    decreases |s|
  {
    if s != [] { UpToAll(s[1..], b); }
  }

  lemma {:induction false} PlainHasNo(s: seq<Byte>)
    requires Plain(s)
    ensures TAB !in s && SPACE !in s && QUOTE !in s && NEWLINE !in s && RETURN !in s
  {
  }

  // `unified_header_path` reads a quoted path back.
  lemma {:induction false} UnifiedPathBack(p: seq<Byte>)
    requires ValidUtf8(p)
    ensures UnifiedPath(Quote(p)) == p
  {
    if Plain(p) {
      PlainHasNo(p);
      UpToAll(p, TAB);
    } else {
      assert Quote(p) + [] == Quote(p);
      QuotedTokenBack(p, []);
    }
  }

  lemma {:induction false} SplitAt(paths: seq<Byte>, i: nat, k: nat, fallback: Option<nat>)
    requires i <= k && k + 3 <= |paths| && paths[k..k + 3] == [SPACE] + B_SIDE && A_SIDE <= paths[..k] && paths[..k][2..] == paths[k + 3..]
    requires forall j :: i <= j < k ==> paths[j] != SPACE
    ensures SplitSides(paths, i, fallback) == Some(k)
    decreases k - i
  {
    if i < k {
      assert paths[i..i + 3][0] == paths[i];
      SplitAt(paths, i + 1, k, fallback);
    }
  }

  // Both sides as the rewriter writes them after `diff --git `.
  function Sides(p: seq<Byte>): seq<Byte> {
    PatchPath(A_SIDE, p) + [SPACE] + PatchPath(B_SIDE, p)
  }

  lemma {:induction false} AfterPrefix(prefix: seq<Byte>, s: seq<Byte>)
    ensures prefix <= prefix + s && (prefix + s)[|prefix|..] == s
  {
  }

  lemma {:induction false} Stripped(p: seq<Byte>)
    ensures StripSide(A_SIDE + p, A_SIDE) == p && StripSide(B_SIDE + p, B_SIDE) == p
  {
    AfterPrefix(A_SIDE, p);
    AfterPrefix(B_SIDE, p);
  }

  // `diff_git_paths` reads both sides back.
  lemma {:induction false} DiffGitPathsBack(p: seq<Byte>)
    requires ValidUtf8(p)
    ensures DiffGitPaths(DIFF_GIT + Sides(p)) == (Some(p), Some(p))
  {
    hide Quote, QuotedSides, SplitSides, ValidUtf8, Plain, Sides, StripSide;
    AfterPrefix(DIFF_GIT, Sides(p));
    if Plain(p) { PlainSides(p); } else { QuotedSidesBack(p); }
    Stripped(p);
  }

  lemma {:induction false} PlainSides(p: seq<Byte>)
    requires ValidUtf8(p) && Plain(p)
    ensures var paths := Sides(p);
            && QuotedSides(paths).None? && SplitSides(paths, 0, None) == Some(2 + |p|)
            && |paths| == 5 + 2 * |p| && paths[..2 + |p|] == A_SIDE + p && paths[2 + |p| + 1..] == B_SIDE + p
  {
    SidesOf(p);
    PlainHasNo(A_SIDE + p);
    assert Sides(p) == (A_SIDE + p) + [SPACE] + (B_SIDE + p);
    hide ValidUtf8, Plain, Quote, Sides;
    assert |A_SIDE| == 2 && |B_SIDE| == 2 && A_SIDE[0] == 97;
    PairSplits(A_SIDE, B_SIDE, p);
  }

  lemma {:induction false} PairSplits(a: seq<Byte>, b: seq<Byte>, p: seq<Byte>)
    requires a == A_SIDE && b == B_SIDE && |a| == 2 && |b| == 2 && a[0] == 97 && SPACE !in a + p
    ensures var paths := (a + p) + [SPACE] + (b + p);
            && QuotedSides(paths).None? && SplitSides(paths, 0, None) == Some(2 + |p|)
            && |paths| == 5 + 2 * |p| && paths[..2 + |p|] == a + p && paths[2 + |p| + 1..] == b + p
  {
    hide SplitSides;
    var paths := (a + p) + [SPACE] + (b + p);
    var k := 2 + |p|;
    assert paths[0] == a[0];
    assert forall j :: 0 <= j < k ==> paths[j] == (a + p)[j];
    assert paths[..k] == a + p && (a + p)[2..] == p;
    assert paths[k + 1..] == b + p && paths[k + 3..] == p;
    assert paths[k..k + 3] == [SPACE] + b;
    SplitAt(paths, 0, k, None);
  }

  lemma {:induction false} QuotedSidesBack(p: seq<Byte>)
    requires ValidUtf8(p) && !Plain(p)
    ensures QuotedSides(Sides(p)) == Some((A_SIDE + p, B_SIDE + p))
  {
    SidesOf(p);
    hide Quote, QuotedToken, ValidUtf8, Plain, TrimStart, SpaceLength;
    var old_, new_ := PatchPath(A_SIDE, p), PatchPath(B_SIDE, p);
    var rest := [SPACE] + new_;
    assert old_ + [SPACE] + new_ == old_ + rest;
    QuotedTokenBack(A_SIDE + p, rest);
    TrimOne(B_SIDE + p);
    assert new_ + [] == new_;
    QuotedTokenBack(B_SIDE + p, []);
  }

  lemma {:induction false} TrimOne(q: seq<Byte>)
    requires !Plain(q)
    ensures TrimStart([SPACE] + Quote(q)) == Quote(q) && TrimStart([]) == []
  {
    hide Plain, QuoteBytes;
    var s := Quote(q);
    assert s[0] == QUOTE && TrimStart(s) == s;
    assert ([SPACE] + s)[1..] == s;
  }

  // The `--- ` and `+++ ` headers name the path they were written for.
  lemma {:induction false} UnifiedHeadersBack(p: seq<Byte>, f: FileBuilder)
    requires ValidUtf8(p)
    ensures ApplyHeader(f, MINUS + PatchPath(A_SIDE, p)) == f.(oldPath := Some(p))
    ensures ApplyHeader(f, PLUS + PatchPath(B_SIDE, p)) == f.(newPath := Some(p))
  {
    SidesOf(p);
    UnifiedPathBack(A_SIDE + p);
    UnifiedPathBack(B_SIDE + p);
    hide Quote, ValidUtf8, Plain, UnifiedPath, StatusLine, BinaryMarker, ApplyStatus, StripSide;
    var m, n := MINUS + PatchPath(A_SIDE, p), PLUS + PatchPath(B_SIDE, p);
    AfterPrefix(MINUS, PatchPath(A_SIDE, p));
    AfterPrefix(PLUS, PatchPath(B_SIDE, p));
    assert (A_SIDE + p)[0] == 97 && (B_SIDE + p)[0] == 98 && DEV_NULL[0] == 47;
    Stripped(p);
    OneKind(m);
    OneKind(n);
  }

  // ---- quoted text is one plain line ----

  predicate LineSafe(s: seq<Byte>) {
    forall k :: 0 <= k < |s| ==> 32 <= s[k] <= 126
  }

  lemma {:induction false} QuoteIsSafe(p: seq<Byte>)
    ensures LineSafe(Quote(p))
  {
    hide QuoteBytes;
    if !Plain(p) { QuoteBytesSafe(p); }
  }

  lemma {:induction false} QuoteBytesSafe(p: seq<Byte>)
    ensures LineSafe(QuoteBytes(p))
    decreases |p|
  {
    if p != [] { QuoteBytesSafe(p[..|p| - 1]); }
  }

  // Such a line survives the byte-level reading: no line break in it, no return at its
  // end, and decoding changes nothing.
  lemma {:induction false} SafeLine(s: seq<Byte>)
    requires LineSafe(s)
    ensures NEWLINE !in s && WithoutReturn(s) == s && WithoutReturn(s + [RETURN]) == s && Lossy(s) == s
  {
    AsciiIsValid(s);
    hide ValidUtf8, Lossy;
    LossyKeepsValid(s);
  }

  lemma {:induction false} SafeConcat(a: seq<Byte>, b: seq<Byte>)
    requires LineSafe(a) && LineSafe(b)
    ensures LineSafe(a + b)
  {
  }

  lemma {:induction false} SafeHeaders(p: seq<Byte>)
    ensures LineSafe(DIFF_GIT + Sides(p)) && LineSafe(MINUS + PatchPath(A_SIDE, p)) && LineSafe(PLUS + PatchPath(B_SIDE, p))
  {
    assert LineSafe(DIFF_GIT) && LineSafe(MINUS) && LineSafe(PLUS) && LineSafe([SPACE]);
    hide Quote, LineSafe;
    QuoteIsSafe(A_SIDE + p);
    QuoteIsSafe(B_SIDE + p);
    SafeConcat(PatchPath(A_SIDE, p), [SPACE]);
    SafeConcat(PatchPath(A_SIDE, p) + [SPACE], PatchPath(B_SIDE, p));
    SafeConcat(DIFF_GIT, Sides(p));
    SafeConcat(MINUS, PatchPath(A_SIDE, p));
    SafeConcat(PLUS, PatchPath(B_SIDE, p));
  }

  // Whatever characters the display path has, the three headers written for it, read as
  // bytes of a patch line with or without a carriage return, name it on both sides.
  lemma {:induction false} HeadersRoundTrip(p: seq<Byte>, f: FileBuilder, ending: seq<Byte>)
    requires ValidUtf8(p) && (ending == [] || ending == [RETURN])
    ensures DiffGitPaths(Lossy(WithoutReturn(DIFF_GIT + Sides(p) + ending))) == (Some(p), Some(p))
    ensures ApplyHeader(f, Lossy(WithoutReturn(MINUS + PatchPath(A_SIDE, p) + ending))) == f.(oldPath := Some(p))
    ensures ApplyHeader(f, Lossy(WithoutReturn(PLUS + PatchPath(B_SIDE, p) + ending))) == f.(newPath := Some(p))
  {
    hide Quote, PatchPath, Sides, DiffGitPaths, ApplyHeader, Lossy, WithoutReturn, ValidUtf8, LineSafe;
    DiffGitPathsBack(p);
    UnifiedHeadersBack(p, f);
    SafeHeaders(p);
    SafeEnding(DIFF_GIT + Sides(p), ending);
    SafeEnding(MINUS + PatchPath(A_SIDE, p), ending);
    SafeEnding(PLUS + PatchPath(B_SIDE, p), ending);
  }

  lemma {:induction false} SafeEnding(s: seq<Byte>, ending: seq<Byte>)
    requires LineSafe(s) && (ending == [] || ending == [RETURN])
    ensures Lossy(WithoutReturn(s + ending)) == s
  {
    hide Lossy;
    SafeLine(s);
    assert s + [] == s;
  }
}

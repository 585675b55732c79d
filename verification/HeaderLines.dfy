// Header lines: which kinds exclude one another, what reading lossily keeps of them, and
// what they leave alone.
module HeaderLines {
  import opened Wrappers
  import opened Utf8
  import opened GitPaths
  import opened PatchModel
  import opened PatchParser

  lemma {:induction false} LossyHead(s: seq<Byte>)
    requires s != []
    ensures Lossy(s) != [] && (s[0] < 128 ==> Lossy(s) == [s[0]] + Lossy(s[1..])) && (s[0] >= 128 ==> Lossy(s)[0] >= 128)
  {
    if s[0] < 128 { assert s[..1] == [s[0]]; }
  }

  lemma {:induction false} LossyPrefix(prefix: seq<Byte>, s: seq<Byte>)
    requires Ascii(prefix)
    ensures prefix <= Lossy(s) <==> prefix <= s
    decreases |prefix|
  {
    if prefix != [] && s != [] {
      LossyHead(s);
      if s[0] < 128 {
        LossyPrefix(prefix[1..], s[1..]);
        ConsPrefix(prefix, s[0], Lossy(s[1..]));
        ConsPrefix(prefix, s[0], s[1..]);
        assert s == [s[0]] + s[1..];
      } else {
        assert prefix[0] < 128;
      }
    }
  }

  lemma {:induction false} ConsPrefix(prefix: seq<Byte>, b: Byte, s: seq<Byte>)
    requires prefix != []
    ensures prefix <= [b] + s <==> prefix[0] == b && prefix[1..] <= s
  {
    if prefix[0] == b && prefix[1..] <= s {
      assert prefix == [b] + prefix[1..];
    }
    if prefix <= [b] + s {
      assert ([b] + s)[..|prefix|] == prefix;
      assert s[..|prefix| - 1] == prefix[1..];
    }
  }

  lemma {:induction false} SamePrefixes(s: seq<Byte>)
    ensures (DIFF_GIT <= Lossy(s) <==> DIFF_GIT <= s) && (MINUS <= Lossy(s) <==> MINUS <= s)
    ensures (PLUS <= Lossy(s) <==> PLUS <= s) && (AT <= Lossy(s) <==> AT <= s)
    ensures s != [] && s[0] == BACKSLASH ==> Lossy(s) != [] && Lossy(s)[0] == BACKSLASH
  {
    hide Lossy;
    LossyPrefix(DIFF_GIT, s);
    LossyPrefix(MINUS, s);
    LossyPrefix(PLUS, s);
    LossyPrefix(AT, s);
    if s != [] { LossyHead(s); }
  }

  // Different first bytes keep the header kinds apart.
  lemma {:induction false} OneKind(s: seq<Byte>)
    ensures DIFF_GIT <= s ==> !(MINUS <= s) && !(PLUS <= s) && !(AT <= s) && !BinaryMarker(s)
    ensures MINUS <= s ==> !(PLUS <= s) && !(AT <= s) && !BinaryMarker(s)
    ensures PLUS <= s ==> !(AT <= s) && !BinaryMarker(s)
    ensures AT <= s ==> !BinaryMarker(s)
    ensures BinaryMarker(s) || MINUS <= s || PLUS <= s || AT <= s ==> !StatusLine(s)
    ensures s != [] && s[0] == BACKSLASH ==> !(DIFF_GIT <= s) && !(MINUS <= s) && !(AT <= s) && !(PLUS <= s) && !BinaryMarker(s)
  {
    assert DIFF_GIT[0] == 100 && MINUS[0] == 45 && PLUS[0] == 43 && AT[0] == 64 && BINARY_FILES[0] == 66 && BINARY_PATCH[0] == 71;
    assert NEW_FILE[0] == 110 && DELETED_FILE[0] == 100 && RENAME_FROM[0] == RENAME_TO[0] == 114 && COPY_FROM[0] == COPY_TO[0] == 99;
    assert OLD_MODE[0] == 111 && NEW_MODE[0] == 110;
  }

  lemma {:induction false} StatusKeeps(f: FileBuilder, line: seq<Byte>)
    ensures var g := ApplyStatus(f, line);
            g.additions == f.additions && g.deletions == f.deletions && g.hunks == f.hunks && g.binary == f.binary
  {
    hide MetadataPath, TrimMatches;
  }

  lemma {:induction false} ApplyHeaderKeeps(f: FileBuilder, line: seq<Byte>)
    ensures var g := ApplyHeader(f, line);
            && g.additions == f.additions && g.deletions == f.deletions && g.hunks == f.hunks
            && g.binary == (f.binary || BinaryMarker(line))
  {
    OneKind(line);
    StatusKeeps(f, line);
    hide UnifiedPath, StripSide, BinaryMarker, StatusLine, ApplyStatus;
  }

  lemma {:induction false} UnifiedCounts(header: seq<Byte>, next: seq<Byte>)
    ensures var f := UnifiedFile(header, next);
            && f.hunks == [] && f.additions == 0 && f.deletions == 0
            && f.binary == (BinaryMarker(Lossy(header)) || BinaryMarker(Lossy(next)))
  {
    hide ApplyHeader, BinaryMarker, Lossy;
    ApplyHeaderKeeps(StartFile((None, None)), Lossy(header));
    ApplyHeaderKeeps(ApplyHeader(StartFile((None, None)), Lossy(header)), Lossy(next));
  }
}

// Bytes and UTF-8 as section 4 of RFC 3629 defines it.  A Rust `str` is a byte
// sequence that satisfies `ValidUtf8`; a Rust `[u8]` is any byte sequence.
module Utf8 {
  type Byte = b: int | 0 <= b < 256
  type Str = s: seq<Byte> | ValidUtf8(s)

  predicate Continuation(b: Byte) {
    0x80 <= b < 0xC0
  }

  // The second byte of a three- or four-byte character is further restricted,
  // which rules out overlong forms, surrogates and code points past U+10FFFF.
  predicate SecondByte(lead: Byte, b: Byte) {
    if lead == 0xE0 then 0xA0 <= b < 0xC0
    else if lead == 0xED then 0x80 <= b < 0xA0
    else if lead == 0xF0 then 0x90 <= b < 0xC0
    else if lead == 0xF4 then 0x80 <= b < 0x90
    else Continuation(b)
  }

  // How many bytes a character with this lead byte occupies, 0 for a byte that cannot lead.
  function Width(lead: Byte): nat {
    if lead < 0x80 then 1
    else if 0xC2 <= lead < 0xE0 then 2
    else if 0xE0 <= lead < 0xF0 then 3
    else if 0xF0 <= lead < 0xF5 then 4
    else 0
  }

  // Length of the well-formed character at the head of `s`, 0 when there is none.
  function CharLength(s: seq<Byte>): (n: nat)
    ensures n <= |s| && n <= 4
    ensures 0 < n ==> !Continuation(s[0]) && forall k :: 1 <= k < n ==> Continuation(s[k])
  {
    if s == [] then 0
    else
      var w := Width(s[0]);
      if |s| < w then 0
      else if w <= 1 then w
      else if !SecondByte(s[0], s[1]) then 0
      else if w >= 3 && !Continuation(s[2]) then 0
      else if w >= 4 && !Continuation(s[3]) then 0
      else w
  }

  predicate ValidUtf8(s: seq<Byte>)
    decreases |s|
  {
    s == [] || (0 < CharLength(s) && ValidUtf8(s[CharLength(s)..]))
  }

  const REPLACEMENT: seq<Byte> := [0xEF, 0xBF, 0xBD]

  // Bytes of the maximal ill-formed prefix that one replacement character stands for.
  function IllFormedLength(s: seq<Byte>): (n: nat)
    requires s != []
    ensures 1 <= n <= |s|
  {
    if Width(s[0]) < 3 || |s| < 2 || !SecondByte(s[0], s[1]) then 1
    else if Width(s[0]) < 4 || |s| < 3 || !Continuation(s[2]) then 2
    else 3
  }

  // `String::from_utf8_lossy`.
  function Lossy(s: seq<Byte>): seq<Byte>
    decreases |s|
  {
    if s == [] then []
    else if 0 < CharLength(s) then s[..CharLength(s)] + Lossy(s[CharLength(s)..])
    else REPLACEMENT + Lossy(s[IllFormedLength(s)..])
  }

  lemma {:induction false} LossyKeepsValid(s: seq<Byte>)
    requires ValidUtf8(s)
    ensures Lossy(s) == s
    decreases |s|
  {
    if s != [] {
      LossyKeepsValid(s[CharLength(s)..]);
    }
  }

  predicate Ascii(s: seq<Byte>) {
    forall k :: 0 <= k < |s| ==> s[k] < 0x80
  }

  lemma {:induction false} AsciiIsValid(s: seq<Byte>)
    requires Ascii(s)
    ensures ValidUtf8(s)
    decreases |s|
  {
    if s != [] {
      AsciiIsValid(s[1..]);
    }
  }

  // `str::is_char_boundary`.
  predicate Boundary(s: seq<Byte>, i: nat) {
    i == 0 || i == |s| || (i < |s| && !Continuation(s[i]))
  }

  // What follows a character does not matter to its length.
  lemma {:induction false} CharLengthLocal(c: seq<Byte>, t: seq<Byte>)
    requires 0 < CharLength(c)
    ensures CharLength(c + t) == CharLength(c)
  {
    assert forall k :: 0 <= k < |c| ==> (c + t)[k] == c[k];
  }

  // A valid string starts with a character and a valid rest.
  lemma {:induction false} ValidCons(c: seq<Byte>, t: seq<Byte>)
    requires CharLength(c) == |c| > 0
    ensures ValidUtf8(c + t) <==> ValidUtf8(t)
  {
    CharLengthLocal(c, t);
    assert (c + t)[|c|..] == t;
  }

  // A nonempty valid string is one character and a valid rest.
  lemma {:induction false} Uncons(s: seq<Byte>) returns (c: seq<Byte>, t: seq<Byte>)
    requires ValidUtf8(s) && s != []
    ensures s == c + t && ValidUtf8(t) && CharLength(c) == |c| && 0 < |c| <= 4
  {
    c, t := s[..CharLength(s)], s[CharLength(s)..];
    assert forall k :: 0 <= k < |c| ==> c[k] == s[k];
  }

  // A valid string cut at a boundary falls into two valid strings.
  lemma {:induction false} CutAtBoundary(s: seq<Byte>, i: nat)
    requires ValidUtf8(s) && i <= |s| && Boundary(s, i)
    ensures ValidUtf8(s[..i]) && ValidUtf8(s[i..])
    decreases |s|
  {
    if i == 0 || i == |s| {
      assert s[..0] == [] && s[0..] == s && s[..|s|] == s && s[|s|..] == [];
    } else {
      var c, t := Uncons(s);
      assert forall k :: 1 <= k < |c| ==> Continuation(s[k]) by {
        assert forall k :: 0 <= k < |c| ==> c[k] == s[k];
      }
      var k := i - |c|;
      assert k < |t| && t[k] == s[i];
      CutAtBoundary(t, k);
      ValidCons(c, t[..k]);
      assert s[..i] == c + t[..k];
      assert s[i..] == t[k..];
    }
  }

  lemma {:induction false} ValidConsConcat(c: seq<Byte>, u: seq<Byte>, t: seq<Byte>)
    requires CharLength(c) == |c| > 0
    ensures ValidUtf8((c + u) + t) <==> ValidUtf8(u + t)
  {
    assert (c + u) + t == c + (u + t);
    ValidCons(c, u + t);
  }

  lemma {:induction false} ValidConcat(s: seq<Byte>, t: seq<Byte>)
    requires ValidUtf8(s) && ValidUtf8(t)
    ensures ValidUtf8(s + t)
    decreases |s|
  {
    if s == [] {
      assert s + t == t;
    } else {
      var c, u := Uncons(s);
      ValidConcat(u, t);
      ValidConsConcat(c, u, t);
    }
  }

  // Length of the White_Space character at the head of `s`, 0 when there is none.
  function SpaceLength(s: seq<Byte>): (n: nat)
    ensures n <= |s|
  {
    if s == [] then 0
    else if 9 <= s[0] <= 13 || s[0] == 32 then 1
    else if |s| >= 2 && s[0] == 0xC2 && (s[1] == 0x85 || s[1] == 0xA0) then 2
    else if |s| >= 3 && s[0] == 0xE1 && s[1] == 0x9A && s[2] == 0x80 then 3
    else if |s| >= 3 && s[0] == 0xE2 && s[1] == 0x80
            && (0x80 <= s[2] <= 0x8A || s[2] == 0xA8 || s[2] == 0xA9 || s[2] == 0xAF) then 3
    else if |s| >= 3 && s[0] == 0xE2 && s[1] == 0x81 && s[2] == 0x9F then 3
    else if |s| >= 3 && s[0] == 0xE3 && s[1] == 0x80 && s[2] == 0x80 then 3
    else 0
  }

  // `str::trim_start`.
  function TrimStart(s: seq<Byte>): (r: seq<Byte>)
    ensures |r| <= |s|
    decreases |s|
  {
    if 0 < SpaceLength(s) then TrimStart(s[SpaceLength(s)..]) else s
  }

  // The first maximal run of non-space characters and what follows it
  // (`str::split_whitespace`, one step, after leading spaces were trimmed).
  function WordLength(s: seq<Byte>): (n: nat)
    ensures n <= |s|
    decreases |s|
  {
    if s == [] || 0 < SpaceLength(s) then 0 else 1 + WordLength(s[1..])
  }

  // An ASCII literal as bytes; the texts below are all written with it.
  function Bytes(s: string): (r: seq<Byte>)
    requires forall k :: 0 <= k < |s| ==> s[k] as int < 128
    ensures |r| == |s| && forall k :: 0 <= k < |s| ==> r[k] == s[k] as int
  {
    seq(|s|, k requires 0 <= k < |s| => s[k] as int)
  }
}

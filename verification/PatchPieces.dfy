// A patch cut into lines with their endings, as the stat counter and the path rewriter
// read it, and how those lines compare with the parser's.
module PatchPieces {
  import opened Utf8
  import opened PatchModel

  // Where the first line of `s` ends, its newline included.
  function PieceEnd(s: seq<Byte>): (n: nat)
    requires s != []
    ensures 0 < n <= |s| && (n < |s| ==> s[n - 1] == NEWLINE) && forall k :: 0 <= k < n - 1 ==> s[k] != NEWLINE
  {
    if LineEnd(s, 0, |s|) < |s| then LineEnd(s, 0, |s|) + 1 else |s|
  }

  // `split_inclusive` at newlines
  function Pieces(s: seq<Byte>): (r: seq<seq<Byte>>)
    decreases |s|
  {
    if s == [] then [] else [s[..PieceEnd(s)]] + Pieces(s[PieceEnd(s)..])
  }

  // A line with its ending: not empty, a newline at its end at most.
  predicate Piece(p: seq<Byte>) {
    p != [] && forall k :: 0 <= k < |p| - 1 ==> p[k] != NEWLINE
  }

  predicate Terminated(p: seq<Byte>) {
    Piece(p) && p[|p| - 1] == NEWLINE
  }

  function Join(ps: seq<seq<Byte>>): seq<Byte> {
    if ps == [] then [] else ps[0] + Join(ps[1..])
  }

  // Pieces that can stand one after the other: only the last may lack its newline.
  predicate PieceList(ps: seq<seq<Byte>>) {
    forall k :: 0 <= k < |ps| ==> Piece(ps[k]) && (k < |ps| - 1 ==> Terminated(ps[k]))
  }

  // `patch_line_parts`: the line without its ending, and the ending.
  function LineParts(p: seq<Byte>): (seq<Byte>, seq<Byte>) {
    var n := |p|;
    if n >= 1 && p[n - 1] == NEWLINE then
      if n >= 2 && p[n - 2] == RETURN then (p[..n - 2], [RETURN, NEWLINE]) else (p[..n - 1], [NEWLINE])
    else if n >= 1 && p[n - 1] == RETURN then (p[..n - 1], [RETURN])
    else (p, [])
  }

  // The line without its newline: what the parser calls the line's bytes.
  function Content(p: seq<Byte>): seq<Byte> {
    if p != [] && p[|p| - 1] == NEWLINE then p[..|p| - 1] else p
  }

  lemma {:induction false} PartsJoin(p: seq<Byte>)
    ensures LineParts(p).0 + LineParts(p).1 == p
    ensures LineParts(p).0 == WithoutReturn(Content(p))
  {
  }

  lemma {:induction false} JoinPieces(s: seq<Byte>)
    ensures Join(Pieces(s)) == s && PieceList(Pieces(s))
    decreases |s|
  {
    if s != [] {
      var n := PieceEnd(s);
      var rest := Pieces(s[n..]);
      JoinPieces(s[n..]);
      assert Pieces(s)[1..] == rest;
      assert s[..n] + s[n..] == s;
      if n == |s| { assert rest == []; }
    }
  }

  lemma {:induction false} PieceEndOf(p: seq<Byte>, rest: seq<Byte>)
    requires Piece(p) && (rest != [] ==> Terminated(p))
    ensures PieceEnd(p + rest) == |p|
  {
    var s := p + rest;
    assert forall k :: 0 <= k < |p| ==> s[k] == p[k];
  }

  // Pieces put together come apart the same way.
  lemma {:induction false} PiecesJoin(ps: seq<seq<Byte>>)
    requires PieceList(ps)
    ensures Pieces(Join(ps)) == ps
    decreases |ps|
  {
    if ps != [] {
      var rest := Join(ps[1..]);
      PiecesJoin(ps[1..]);
      JoinNonEmpty(ps[1..]);
      PieceEndOf(ps[0], rest);
      assert (ps[0] + rest)[..|ps[0]|] == ps[0] && (ps[0] + rest)[|ps[0]|..] == rest;
      assert [ps[0]] + ps[1..] == ps;
    }
  }

  lemma {:induction false} JoinNonEmpty(ps: seq<seq<Byte>>)
    requires PieceList(ps)
    ensures Join(ps) != [] <==> ps != []
  {
  }

  lemma {:induction false} JoinConcat(a: seq<seq<Byte>>, b: seq<seq<Byte>>)
    ensures Join(a + b) == Join(a) + Join(b)
    decreases |a|
  {
    if a == [] {
      assert a + b == b;
    } else {
      assert (a + b)[1..] == a[1..] + b;
      JoinConcat(a[1..], b);
    }
  }

  // Pieces that something may follow.
  predicate AllTerminated(pieces: seq<seq<Byte>>) {
    forall k :: 0 <= k < |pieces| ==> Terminated(pieces[k])
  }

  lemma {:induction false} TerminatedIsList(pieces: seq<seq<Byte>>)
    requires AllTerminated(pieces)
    ensures PieceList(pieces)
  {
    hide Piece;
  }

  lemma {:induction false} ListConcat(a: seq<seq<Byte>>, b: seq<seq<Byte>>)
    requires AllTerminated(a) && PieceList(b)
    ensures PieceList(a + b)
  {
    hide Piece;
  }

  // ---- the parser's lines ----

  function Contents(lines: seq<Line>): seq<seq<Byte>> {
    if lines == [] then [] else [lines[0].bytes] + Contents(lines[1..])
  }

  function PieceContents(ps: seq<seq<Byte>>): seq<seq<Byte>> {
    if ps == [] then [] else [Content(ps[0])] + PieceContents(ps[1..])
  }

  lemma {:induction false} ContentsCons(x: seq<Byte>, ps: seq<seq<Byte>>)
    ensures PieceContents([x] + ps) == [Content(x)] + PieceContents(ps)
  {
    assert ([x] + ps)[1..] == ps;
  }

  lemma {:induction false} ContentsConcat(a: seq<seq<Byte>>, b: seq<seq<Byte>>)
    ensures PieceContents(a + b) == PieceContents(a) + PieceContents(b)
    decreases |a|
  {
    hide Content;
    if a == [] {
      assert a + b == b;
    } else {
      ContentsConcat(a[1..], b);
      ContentsCons(a[0], a[1..] + b);
      ContentsCons(a[0], a[1..]);
      assert a + b == [a[0]] + (a[1..] + b) && [a[0]] + a[1..] == a;
    }
  }

  lemma {:induction false} EndShift(raw: seq<Byte>, base: nat, at: nat)
    requires base <= at <= |raw|
    ensures LineEnd(raw, at, |raw|) == base + LineEnd(raw[base..], at - base, |raw| - base)
    decreases |raw| - at
  {
    if at < |raw| && raw[at] != NEWLINE { EndShift(raw, base, at + 1); }
  }

  // Where the line after this one starts.
  function NextLine(raw: seq<Byte>, lo: nat): (r: nat)
    requires lo < |raw|
    ensures lo < r <= |raw|
  {
    if LineEnd(raw, lo, |raw|) < |raw| then LineEnd(raw, lo, |raw|) + 1 else |raw|
  }

  lemma {:induction false} PiecesCons(s: seq<Byte>)
    requires s != []
    ensures PieceContents(Pieces(s)) == [Content(s[..PieceEnd(s)])] + PieceContents(Pieces(s[PieceEnd(s)..]))
  {
    hide Content;
    assert Pieces(s)[1..] == Pieces(s[PieceEnd(s)..]);
  }

  lemma {:induction false} LinesCons(raw: seq<Byte>, lo: nat)
    requires lo < |raw|
    ensures Contents(Lines(raw, lo, |raw|)) == [raw[lo..LineEnd(raw, lo, |raw|)]] + Contents(Lines(raw, NextLine(raw, lo), |raw|))
  {
    hide LineEnd;
    assert Lines(raw, lo, |raw|)[1..] == Lines(raw, NextLine(raw, lo), |raw|);
  }

  lemma {:induction false} FirstPiece(raw: seq<Byte>, lo: nat)
    requires lo < |raw|
    ensures lo + PieceEnd(raw[lo..]) == NextLine(raw, lo)
    ensures Content(raw[lo..][..PieceEnd(raw[lo..])]) == raw[lo..LineEnd(raw, lo, |raw|)]
  {
    EndShift(raw, lo, lo);
  }

  lemma {:induction false} DropDrop(raw: seq<Byte>, lo: nat, n: nat)
    requires lo + n <= |raw|
    ensures raw[lo..][n..] == raw[lo + n..]
  {
  }

  lemma {:induction false} NoLines(raw: seq<Byte>)
    ensures PieceContents(Pieces(raw[|raw|..])) == [] && Contents(Lines(raw, |raw|, |raw|)) == []
  {
  }

  // Both readings take the same first line off.
  lemma {:induction false} SameHead(raw: seq<Byte>, lo: nat) returns (head: seq<Byte>, next: nat)
    requires lo < |raw|
    ensures lo < next <= |raw|
    ensures PieceContents(Pieces(raw[lo..])) == [head] + PieceContents(Pieces(raw[next..]))
    ensures Contents(Lines(raw, lo, |raw|)) == [head] + Contents(Lines(raw, next, |raw|))
  {
    hide Pieces, Lines, LineEnd, PieceEnd, NextLine, Content, Contents, PieceContents;
    var s := raw[lo..];
    FirstPiece(raw, lo);
    DropDrop(raw, lo, PieceEnd(s));
    PiecesCons(s);
    LinesCons(raw, lo);
    head, next := Content(s[..PieceEnd(s)]), NextLine(raw, lo);
  }

  // Both readings see the same lines.
  lemma {:induction false} PiecesAreLines(raw: seq<Byte>, lo: nat)
    requires lo <= |raw|
    ensures PieceContents(Pieces(raw[lo..])) == Contents(Lines(raw, lo, |raw|))
    decreases |raw| - lo
  {
    hide Pieces, Lines, Contents, PieceContents;
    if lo == |raw| {
      NoLines(raw);
    } else {
      var head, next := SameHead(raw, lo);
      PiecesAreLines(raw, next);
    }
  }
}

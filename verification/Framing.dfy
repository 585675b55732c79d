// Newline-delimited request framing over a buffered reader.
module Framing {
  import opened Utf8
  import opened PatchModel

  const MAX_REQUEST_BYTES := 1024 * 1024

  datatype Frame = Eof | Message(bytes: seq<Byte>) | Oversized

  // Where the first line ends: the index of its newline, or the length without one.
  function FirstEnd(s: seq<Byte>): (n: nat)
    ensures n <= |s| && (n < |s| ==> s[n] == NEWLINE)
    ensures forall k :: 0 <= k < n ==> s[k] != NEWLINE
  {
    LineEnd(s, 0, |s|)
  }

  // The next frame of a byte stream, and what follows it.
  function NextFrame(s: seq<Byte>): (Frame, seq<Byte>) {
    var n := FirstEnd(s);
    if n < |s| then (if n > MAX_REQUEST_BYTES then Oversized else Message(WithoutReturn(s[..n])), s[n + 1..])
    else (if s == [] then Eof else if n > MAX_REQUEST_BYTES then Oversized else Message(s), [])
  }

  function Flatten(chunks: seq<seq<Byte>>): seq<Byte> {
    if chunks == [] then [] else chunks[0] + Flatten(chunks[1..])
  }

  // A buffered reader: the bytes arrive in chunks that the transport chooses.
  class ChunkReader {
    var chunks: seq<seq<Byte>>

    ghost predicate Valid()
      reads this
    {
      forall c :: c in chunks ==> c != []
    }

    function Rest(): seq<Byte>
      reads this
    {
      Flatten(chunks)
    }

    constructor (input: seq<seq<Byte>>)
      requires forall c :: c in input ==> c != []
      ensures Valid() && Rest() == Flatten(input)
    {
      chunks := input;
    }

    // `fill_buf`: the unread part of the current chunk, empty at the end of input.
    method FillBuf() returns (buf: seq<Byte>)
      requires Valid()
      ensures if chunks == [] then buf == [] else buf == chunks[0] != []
      ensures buf <= Rest() && (buf == [] ==> Rest() == [])
    {
      if chunks == [] { return []; }
      assert chunks[0] in chunks;
      buf := chunks[0];
    }

    method Consume(n: nat)
      requires Valid() && chunks != [] && n <= |chunks[0]|
      modifies this
      ensures Valid() && Rest() == old(Rest())[n..]
    {
      var left, rest := chunks[0][n..], chunks[1..];
      assert (chunks[0] + Flatten(rest))[n..] == left + Flatten(rest);
      assert forall c :: c in rest ==> c in chunks;
      if left == [] {
        chunks := rest;
        assert left + Flatten(rest) == Flatten(rest);
      } else {
        chunks := [left] + rest;
        assert chunks[1..] == rest;
      }
    }
  }

  // No newline among the first n bytes.
  predicate Clear(s: seq<Byte>, n: nat)
    requires n <= |s|
  {
    forall k :: 0 <= k < n ==> s[k] != NEWLINE
  }

  lemma {:induction false} LineEndAt(s: seq<Byte>, n: nat)
    requires n <= |s| && (n < |s| ==> s[n] == NEWLINE) && Clear(s, n)
    ensures FirstEnd(s) == n
  {
    hide FirstEnd;
    assert FirstEnd(s) < |s| ==> s[FirstEnd(s)] == NEWLINE;
  }

  // Where the line ends is what the frame is.
  lemma {:induction false} FrameAt(s: seq<Byte>, n: nat)
    requires n <= |s| && (n < |s| ==> s[n] == NEWLINE) && Clear(s, n)
    ensures n < |s| ==> NextFrame(s) == (if n > MAX_REQUEST_BYTES then Oversized else Message(WithoutReturn(s[..n])), s[n + 1..])
    ensures n == |s| ==> NextFrame(s) == (if n > MAX_REQUEST_BYTES then Oversized else if s == [] then Eof else Message(s), [])
  {
    hide FirstEnd, Clear;
    LineEndAt(s, n);
  }

  // Reading on by the newline-free part of the next chunk.
  lemma {:induction false} ReadOn(s: seq<Byte>, done: nat, bytes: seq<Byte>)
    requires done <= |s| && bytes <= s[done..] && Clear(s, done)
    ensures var e := FirstEnd(bytes);
            && done + e <= |s| && Clear(s, done + e) && s[..done] + bytes[..e] == s[..done + e]
            && s[done..][e..] == s[done + e..]
            && (e < |bytes| ==> done + e < |s| && s[done + e] == NEWLINE && s[done..][e + 1..] == s[done + e + 1..])
  {
    var e := FirstEnd(bytes);
    assert forall k :: 0 <= k < |bytes| ==> s[done + k] == s[done..][k] == bytes[k];
    forall k | done <= k < done + e ensures s[k] != NEWLINE { assert s[k] == bytes[k - done]; }
  }

  // `read_frame`: the same frame, and the same rest, however the input is chunked; an
  // oversized line is drained to its newline without being kept.
  method ReadFrame(input: ChunkReader) returns (frame: Frame)
    requires input.Valid()
    modifies input
    ensures input.Valid() && (frame, input.Rest()) == NextFrame(old(input.Rest()))
  {
    hide Flatten, FirstEnd, NextFrame, Clear, ChunkReader.Rest, ChunkReader.Valid;
    ghost var s := input.Rest();
    ghost var done := 0;
    var kept: seq<Byte> := [];
    var oversized := false;
    NothingRead(s);
    while true
      invariant input.Valid() && done <= |s| && input.Rest() == s[done..] && Clear(s, done)
      invariant oversized <==> done > MAX_REQUEST_BYTES
      invariant kept == if oversized then [] else s[..done]
      decreases |s| - done
    {
      var bytes := input.FillBuf();
      if bytes == [] {
        assert s[..done] == s;
        FrameAt(s, done);
        return if oversized then Oversized else if kept == [] then Eof else Message(kept);
      }
      var payload := FirstEnd(bytes);
      ReadOn(s, done, bytes);
      var consumed := if payload < |bytes| then payload + 1 else payload;
      if !oversized {
        if |kept| + payload > MAX_REQUEST_BYTES {
          oversized, kept := true, [];
        } else {
          kept := kept + bytes[..payload];
        }
      }
      input.Consume(consumed);
      done := done + payload;
      if payload < |bytes| {
        FrameAt(s, done);
        if kept != [] && kept[|kept| - 1] == RETURN { kept := kept[..|kept| - 1]; }
        return if oversized then Oversized else Message(kept);
      }
    }
  }

  lemma {:induction false} NothingRead(s: seq<Byte>)
    ensures Clear(s, 0) && s[0..] == s && s[..0] == []
  {
  }

  // All frames of a stream.
  function Frames(s: seq<Byte>): seq<Frame>
    decreases |s|
  {
    if s == [] then [] else [NextFrame(s).0] + Frames(NextFrame(s).1)
  }

  function Encode(lines: seq<seq<Byte>>): seq<Byte> {
    if lines == [] then [] else lines[0] + [NEWLINE] + Encode(lines[1..])
  }

  // Lines written one after the other come back one by one: too long a line costs that
  // one frame and never the ones after it.
  lemma {:induction false} FramesOfLines(lines: seq<seq<Byte>>)
    requires forall k :: 0 <= k < |lines| ==> NEWLINE !in lines[k]
    ensures |Frames(Encode(lines))| == |lines|
    ensures forall k :: 0 <= k < |lines| ==>
              Frames(Encode(lines))[k] == if |lines[k]| > MAX_REQUEST_BYTES then Oversized else Message(WithoutReturn(lines[k]))
    decreases |lines|
  {
    if lines != [] {
      var s, rest := Encode(lines), Encode(lines[1..]);
      LineEndAt(s, |lines[0]|);
      assert s[..|lines[0]|] == lines[0] && s[|lines[0]| + 1..] == rest;
      FramesOfLines(lines[1..]);
    }
  }
}

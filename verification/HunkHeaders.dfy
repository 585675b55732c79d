// A hunk header written as git writes it reads back as the ranges it was written for.
module HunkHeaders {
  import opened Wrappers
  import opened Utf8
  import opened GitPaths
  import opened PatchModel

  // ---- decimal numbers ----

  function Decimal(n: nat): (r: seq<Byte>)
    ensures r != [] && forall k :: 0 <= k < |r| ==> 48 <= r[k] <= 57
  {
    (if n < 10 then [] else Decimal(n / 10)) + [48 + n % 10]
  }

  lemma {:induction false} ParseConcat(a: seq<Byte>, b: seq<Byte>, value: nat)
    ensures ParseDigits(a + b, value) == match ParseDigits(a, value) case None => None case Some(v) => ParseDigits(b, v)
    decreases |a|
  {
    if a == [] {
      assert a + b == b;
    } else {
      assert (a + b)[1..] == a[1..] + b;
      if 48 <= a[0] <= 57 && value * 10 + (a[0] - 48) <= USIZE_MAX { ParseConcat(a[1..], b, value * 10 + (a[0] - 48)); }
    }
  }

  // A number that fits reads back.
  lemma {:induction false} DecimalBack(n: nat)
    requires n <= USIZE_MAX
    ensures ParseDigits(Decimal(n), 0) == Some(n) && ParseUsize(Decimal(n)) == Some(n)
    decreases n
  {
    var last := [48 + n % 10];
    if n < 10 {
      assert Decimal(n) == last;
      assert last[1..] == [];
    } else {
      DecimalBack(n / 10);
      ParseConcat(Decimal(n / 10), last, 0);
      assert last[1..] == [];
      assert ParseDigits(last, n / 10) == Some(n);
    }
    assert Decimal(n)[0] != 43;
  }

  // ---- words ----

  predicate WordByte(b: Byte) {
    33 <= b <= 126
  }

  predicate Word(s: seq<Byte>) {
    s != [] && forall k :: 0 <= k < |s| ==> WordByte(s[k])
  }

  lemma {:induction false} WordIs(word: seq<Byte>, rest: seq<Byte>)
    requires (forall k :: 0 <= k < |word| ==> WordByte(word[k])) && (rest == [] || rest[0] == SPACE)
    ensures WordLength(word + rest) == |word|
    decreases |word|
  {
    if word == [] {
      assert word + rest == rest;
    } else {
      assert (word + rest)[1..] == word[1..] + rest;
      WordIs(word[1..], rest);
    }
  }

  // Reading one word after at most one space.
  lemma {:induction false} TakeWord(word: seq<Byte>, rest: seq<Byte>)
    requires Word(word) && (rest == [] || rest[0] == SPACE)
    ensures FirstWord(word + rest) == word && SkipWord(word + rest) == rest
    ensures FirstWord([SPACE] + (word + rest)) == word && SkipWord([SPACE] + (word + rest)) == rest
  {
    var s := word + rest;
    WordIs(word, rest);
    assert WordByte(s[0]) && SpaceLength(s) == 0 && TrimStart(s) == s;
    assert ([SPACE] + s)[1..] == s && TrimStart([SPACE] + s) == s;
    assert s[..|word|] == word && s[|word|..] == rest;
  }

  // ---- ranges ----

  function RangeText(start: nat, count: nat): seq<Byte> {
    Decimal(start) + [COMMA] + Decimal(count)
  }

  lemma {:induction false} UpToComma(s: seq<Byte>, t: seq<Byte>)
    requires COMMA !in s
    ensures UpTo(s + [COMMA] + t, COMMA) == s
    decreases |s|
  {
    var all := s + [COMMA] + t;
    if s == [] {
      assert all[0] == COMMA;
    } else {
      assert all[0] == s[0] && all[1..] == s[1..] + [COMMA] + t;
      UpToComma(s[1..], t);
      assert [s[0]] + s[1..] == s;
    }
  }

  lemma {:induction false} RangeBack(start: nat, count: nat)
    requires start <= USIZE_MAX && count <= USIZE_MAX
    ensures HunkRange(RangeText(start, count)) == (start, count)
  {
    hide Decimal, ParseUsize;
    DecimalBack(start);
    DecimalBack(count);
    var s, t := Decimal(start), Decimal(count);
    UpToComma(s, t);
    assert (s + [COMMA] + t)[|s| + 1..] == t;
  }

  lemma {:induction false} UpToNothing(s: seq<Byte>)
    requires COMMA !in s
    ensures UpTo(s, COMMA) == s
    decreases |s|
  {
    if s != [] { UpToNothing(s[1..]); }
  }

  // A count left out is one.
  lemma {:induction false} ShortRangeBack(start: nat)
    requires start <= USIZE_MAX
    ensures HunkRange(Decimal(start)) == (start, 1)
  {
    hide Decimal, ParseUsize;
    DecimalBack(start);
    UpToNothing(Decimal(start));
  }

  lemma {:induction false} SignStripped(sign: Byte, text: seq<Byte>)
    requires text != [] && text[0] != sign
    ensures TrimMatches([sign] + text, [sign]) == text
  {
    assert ([sign] + text)[1..] == text;
    assert !([sign] <= text);
  }

  // ---- the header ----

  // One side of a header, with or without its count.
  datatype Side = Full(start: nat, count: nat) | Short(start: nat)

  function SideText(s: Side): (r: seq<Byte>)
    ensures r != [] && 48 <= r[0] <= 57 && forall k :: 0 <= k < |r| ==> WordByte(r[k])
  {
    match s
    case Full(start, count) => RangeText(start, count)
    case Short(start) => Decimal(start)
  }

  function CountOf(s: Side): nat {
    if s.Full? then s.count else 1
  }

  predicate Fits(s: Side) {
    s.start <= USIZE_MAX && CountOf(s) <= USIZE_MAX
  }

  // What follows the ranges: nothing, or a space and anything.
  function HeaderText(o: Side, n: Side, tail: seq<Byte>): seq<Byte> {
    [64, 64] + ([SPACE] + (([45] + SideText(o)) + ([SPACE] + (([43] + SideText(n)) + tail))))
  }

  lemma {:induction false} SideBack(s: Side)
    requires Fits(s)
    ensures HunkRange(SideText(s)) == (s.start, CountOf(s))
  {
    hide HunkRange, Decimal;
    match s
    case Full(start, count) => RangeBack(start, count);
    case Short(start) => ShortRangeBack(start);
  }

  lemma {:induction false} SignedIsWord(sign: Byte, s: Side)
    requires WordByte(sign)
    ensures Word([sign] + SideText(s))
  {
    hide SideText;
  }

  lemma {:induction false} ThreeWords(a: seq<Byte>, b: seq<Byte>, c: seq<Byte>, tail: seq<Byte>)
    requires Word(a) && Word(b) && Word(c) && (tail == [] || tail[0] == SPACE)
    ensures var h := a + ([SPACE] + (b + ([SPACE] + (c + tail))));
            FirstWord(SkipWord(h)) == b && FirstWord(SkipWord(SkipWord(h))) == c
  {
    hide FirstWord, SkipWord, Word;
    var third := c + tail;
    var second := b + ([SPACE] + third);
    TakeWord(a, [SPACE] + second);
    TakeWord(b, [SPACE] + third);
    TakeWord(c, tail);
  }

  lemma {:induction false} StartsAt(o: Side, n: Side, tail: seq<Byte>)
    ensures AT <= HeaderText(o, n, tail)
  {
    hide SideText;
    assert AT == [64, 64, SPACE];
    assert HeaderText(o, n, tail)[..3] == [64, 64, SPACE];
  }

  lemma {:induction false} SideReads(sign: Byte, s: Side)
    requires Fits(s) && (sign == 43 || sign == 45)
    ensures Word([sign] + SideText(s)) && HunkRange(TrimMatches([sign] + SideText(s), [sign])) == (s.start, CountOf(s))
  {
    hide SideText, HunkRange, Word, TrimMatches;
    SignedIsWord(sign, s);
    SignStripped(sign, SideText(s));
    SideBack(s);
  }

  // The old range is the first after the mark, the new one the second, each with its
  // own start and count, whatever section text follows.
  lemma {:induction false} HunkHeaderBack(o: Side, n: Side, tail: seq<Byte>)
    requires Fits(o) && Fits(n) && (tail == [] || tail[0] == SPACE)
    ensures HunkHeader(HeaderText(o, n, tail)) == Ranges(o.start, CountOf(o), n.start, CountOf(n))
    ensures AT <= HeaderText(o, n, tail)
  {
    assert Word([64, 64]);
    assert Bytes("-") == [45] && Bytes("+") == [43];
    hide SideText, HunkRange, TrimMatches, FirstWord, SkipWord, Word;
    SideReads(45, o);
    SideReads(43, n);
    ThreeWords([64, 64], [45] + SideText(o), [43] + SideText(n), tail);
    StartsAt(o, n, tail);
  }
}

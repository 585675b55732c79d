// The hint codes against all prefix-free codes over the same alphabet: none is shorter,
// in its longest word or in all words together.
module HintOptimality {
  import opened HintCodes

  // Words none of which begins another.
  predicate Clash(s: string, t: string) {
    IsPrefix(s, t) || IsPrefix(t, s)
  }

  predicate PrefixCode(words: seq<string>) {
    forall i, j :: 0 <= i < j < |words| ==> !Clash(words[i], words[j])
  }

  predicate OverAlphabet(words: seq<string>, alphabet: string) {
    forall i, k :: 0 <= i < |words| && 0 <= k < |words[i]| ==> words[i][k] in alphabet
  }

  predicate NonEmpty(words: seq<string>) {
    forall i :: 0 <= i < |words| ==> words[i] != ""
  }

  // ---- the Kraft sum ----

  // The leaves of the full tree of this depth below a word.
  function Leaves(word: string, r: nat, depth: nat): nat {
    if |word| <= depth then Pow(r, depth - |word|) else 0
  }

  function Weight(words: seq<string>, r: nat, depth: nat): nat {
    if words == [] then 0 else Leaves(words[0], r, depth) + Weight(words[1..], r, depth)
  }

  // The same over the words that begin with one of these letters.
  function WeightIn(words: seq<string>, letters: string, r: nat, depth: nat): nat {
    if words == [] then 0
    else (if words[0] != "" && words[0][0] in letters then Leaves(words[0], r, depth) else 0) + WeightIn(words[1..], letters, r, depth)
  }

  // What follows the letter in the words that begin with it.
  function Tails(words: seq<string>, a: char): (r: seq<string>)
    ensures forall t :: t in r ==> [a] + t in words
  {
    if words == [] then []
    else if words[0] != "" && words[0][0] == a then
      assert [a] + words[0][1..] == words[0];
      [words[0][1..]] + Tails(words[1..], a)
    else Tails(words[1..], a)
  }

  lemma {:induction false} TailCode(words: seq<string>)
    requires words != [] && PrefixCode(words)
    ensures PrefixCode(words[1..]) && forall t :: t in words[1..] ==> !Clash(words[0], t)
  {
    hide Clash;
    var rest := words[1..];
    forall t | t in rest ensures !Clash(words[0], t) {
      var k :| 0 <= k < |rest| && rest[k] == t;
      assert words[k + 1] == t;
    }
    forall i, j | 0 <= i < j < |rest| ensures !Clash(rest[i], rest[j]) {
      assert rest[i] == words[i + 1] && rest[j] == words[j + 1];
    }
  }

  lemma {:induction false} ConsCode(word: string, rest: seq<string>)
    requires PrefixCode(rest) && forall t :: t in rest ==> !Clash(word, t)
    ensures PrefixCode([word] + rest)
  {
    hide Clash;
    var words := [word] + rest;
    forall i, j | 0 <= i < j < |words| ensures !Clash(words[i], words[j]) {
      assert words[j] == rest[j - 1];
      if i > 0 { assert words[i] == rest[i - 1]; }
    }
  }

  lemma {:induction false} ClashBelow(a: char, s: string, t: string)
    requires Clash(s, t)
    ensures Clash([a] + s, [a] + t)
  {
    if IsPrefix(s, t) {
      assert ([a] + t)[..1 + |s|] == [a] + s;
    } else {
      assert ([a] + s)[..1 + |t|] == [a] + t;
    }
  }

  lemma {:induction false} TailsCode(words: seq<string>, a: char)
    requires PrefixCode(words)
    ensures PrefixCode(Tails(words, a))
    decreases |words|
  {
    hide Clash;
    if words != [] {
      TailCode(words);
      TailsCode(words[1..], a);
      if words[0] != "" && words[0][0] == a {
        var word, rest := words[0][1..], Tails(words[1..], a);
        assert [a] + word == words[0];
        forall t | t in rest ensures !Clash(word, t) {
          if Clash(word, t) { ClashBelow(a, word, t); }
        }
        ConsCode(word, rest);
      }
    }
  }

  lemma {:induction false} TailsOver(words: seq<string>, a: char, alphabet: string)
    requires OverAlphabet(words, alphabet)
    ensures OverAlphabet(Tails(words, a), alphabet)
  {
    var tails := Tails(words, a);
    forall i, k | 0 <= i < |tails| && 0 <= k < |tails[i]| ensures tails[i][k] in alphabet {
      assert tails[i] in tails;
      var n :| 0 <= n < |words| && words[n] == [a] + tails[i];
      assert words[n][k + 1] == tails[i][k];
    }
  }

  // One letter more.
  lemma {:induction false} WeightStep(words: seq<string>, letters: string, a: char, r: nat, depth: nat)
    requires 0 < depth
    ensures WeightIn(words, letters + [a], r, depth) <= WeightIn(words, letters, r, depth) + Weight(Tails(words, a), r, depth - 1)
    decreases |words|
  {
    if words != [] {
      WeightStep(words[1..], letters, a, r, depth);
      if words[0] != "" && words[0][0] == a {
        assert Tails(words, a)[1..] == Tails(words[1..], a);
        assert Leaves(words[0], r, depth) == Leaves(words[0][1..], r, depth - 1);
      }
      hide Leaves;
    }
  }

  lemma {:induction false} AllLetters(words: seq<string>, alphabet: string, r: nat, depth: nat)
    requires OverAlphabet(words, alphabet) && NonEmpty(words)
    ensures WeightIn(words, alphabet, r, depth) == Weight(words, r, depth)
    decreases |words|
  {
    hide Leaves;
    if words != [] {
      assert words[0][0] in alphabet;
      assert OverAlphabet(words[1..], alphabet) by {
        forall i, k | 0 <= i < |words[1..]| && 0 <= k < |words[1..][i]| ensures words[1..][i][k] in alphabet {
          assert words[1..][i] == words[i + 1];
        }
      }
      AllLetters(words[1..], alphabet, r, depth);
    }
  }

  lemma {:induction false} NoLetters(words: seq<string>, r: nat, depth: nat)
    ensures WeightIn(words, "", r, depth) == 0
    decreases |words|
  {
    if words != [] { NoLetters(words[1..], r, depth); }
  }

  lemma {:induction false} LettersBounded(words: seq<string>, alphabet: string, n: nat, depth: nat)
    requires PrefixCode(words) && OverAlphabet(words, alphabet) && 0 < depth && n <= |alphabet|
    ensures WeightIn(words, alphabet[..n], |alphabet|, depth) <= n * Pow(|alphabet|, depth - 1)
    decreases depth, n
  {
    var r := |alphabet|;
    if n == 0 {
      NoLetters(words, r, depth);
    } else {
      var a := alphabet[n - 1];
      LettersBounded(words, alphabet, n - 1, depth);
      assert alphabet[..n] == alphabet[..n - 1] + [a];
      WeightStep(words, alphabet[..n - 1], a, r, depth);
      TailsCode(words, a);
      TailsOver(words, a, alphabet);
      Kraft(Tails(words, a), alphabet, depth - 1);
      NextMul(n - 1, Pow(r, depth - 1));
    }
  }

  lemma {:induction false} EmptyClashes(words: seq<string>, k: nat)
    requires k < |words| && words[k] == ""
    ensures |words| == 1 || exists i, j :: 0 <= i < j < |words| && Clash(words[i], words[j])
  {
    if |words| > 1 {
      var j := if k == 0 then 1 else 0;
      assert words[j][..0] == "";
      assert Clash(words[k], words[j]) && Clash(words[j], words[k]);
    }
  }

  // A code with the empty word has no other.
  lemma {:induction false} EmptyWordAlone(words: seq<string>, k: nat)
    requires PrefixCode(words) && k < |words| && words[k] == ""
    ensures words == [""]
  {
    hide Clash;
    EmptyClashes(words, k);
  }

  lemma {:induction false} NoneShort(words: seq<string>, r: nat)
    requires NonEmpty(words)
    ensures Weight(words, r, 0) == 0
    decreases |words|
  {
    if words != [] { NoneShort(words[1..], r); }
  }

  // The words of a prefix-free code have no more leaves than the tree.
  lemma {:induction false} Kraft(words: seq<string>, alphabet: string, depth: nat)
    requires PrefixCode(words) && OverAlphabet(words, alphabet)
    ensures Weight(words, |alphabet|, depth) <= Pow(|alphabet|, depth)
    decreases depth, |alphabet| + 1
  {
    var r := |alphabet|;
    if k :| 0 <= k < |words| && words[k] == "" {
      EmptyWordAlone(words, k);
      assert words[1..] == [];
    } else if depth == 0 {
      NoneShort(words, r);
    } else {
      LettersBounded(words, alphabet, r, depth);
      assert alphabet[..r] == alphabet;
      AllLetters(words, alphabet, r, depth);
      MulCommutes(r, Pow(r, depth - 1));
    }
  }

  lemma {:induction false} MulCommutes(a: nat, b: nat)
    ensures a * b == b * a
  {
  }

  // ---- lengths ----

  function TotalLength(words: seq<string>): nat {
    if words == [] then 0 else |words[0]| + TotalLength(words[1..])
  }

  // How many words are shorter than this.
  function Shorter(words: seq<string>, depth: nat): nat {
    if words == [] then 0 else (if |words[0]| < depth then 1 else 0) + Shorter(words[1..], depth)
  }

  predicate NotLonger(words: seq<string>, depth: nat) {
    forall k :: 0 <= k < |words| ==> |words[k]| <= depth
  }

  lemma {:induction false} MulAssociates(a: int, b: int, c: int)
    ensures (a * b) * c == a * (b * c)
  {
  }

  lemma {:induction false} MulNatural(a: nat, b: nat)
    ensures a * b >= 0
  {
  }

  lemma {:induction false} Distribute(a: int, b: int, c: int)
    ensures a * (b + c) == a * b + a * c
  {
  }

  lemma {:induction false} Bernoulli(r: nat, k: nat)
    requires 2 <= r
    ensures Pow(r, k) >= 1 + (r - 1) * k
    decreases k
  {
    if k > 0 {
      Bernoulli(r, k - 1);
      var q := (r - 1) * (k - 1);
      MulMonotone(1 + q, Pow(r, k - 1), r);
      assert (1 + q) * r == r + q * r;
      MulMonotone(1, r, q);
      MulCommutes(q, r);
      Distribute(r - 1, k - 1, 1);
    }
  }

  // A word of this length or another: what it gains in leaves it pays in letters.
  lemma {:induction false} LeavesTangent(word: string, r: nat, depth: nat)
    requires 2 <= r
    ensures Leaves(word, r, depth) + (r - 1) * |word| >= 1 + (r - 1) * depth
  {
    if |word| <= depth {
      Bernoulli(r, depth - |word|);
      Distribute(r - 1, depth - |word|, |word|);
    } else {
      MulCommutes(r - 1, |word|);
      MulCommutes(r - 1, depth + 1);
      MulMonotone(depth + 1, |word|, r - 1);
      Distribute(r - 1, depth, 1);
    }
  }

  lemma {:induction false} WeightTangent(words: seq<string>, r: nat, depth: nat)
    requires 2 <= r
    ensures Weight(words, r, depth) + (r - 1) * TotalLength(words) >= |words| + ((r - 1) * depth) * |words|
    decreases |words|
  {
    hide Leaves;
    if words != [] {
      LeavesTangent(words[0], r, depth);
      WeightTangent(words[1..], r, depth);
      Distribute(r - 1, |words[0]|, TotalLength(words[1..]));
      Distribute((r - 1) * depth, |words| - 1, 1);
    }
  }

  // A shorter word has at least `r` leaves, any other one.
  lemma {:induction false} WeightShort(words: seq<string>, r: nat, depth: nat)
    requires 2 <= r && NotLonger(words, depth)
    ensures Weight(words, r, depth) >= |words| + (r - 1) * Shorter(words, depth)
    decreases |words|
  {
    if words != [] {
      var n := depth - |words[0]|;
      Bernoulli(r, n);
      if 0 < n {
        MulCommutes(r - 1, n);
        MulMonotone(1, n, r - 1);
      }
      assert NotLonger(words[1..], depth) by { forall k | 0 <= k < |words[1..]| ensures |words[1..][k]| <= depth { assert words[1..][k] == words[k + 1]; } }
      WeightShort(words[1..], r, depth);
      Distribute(r - 1, Shorter(words[1..], depth), 1);
    }
  }

  // ---- the hint codes among all codes ----

  lemma {:induction false} HintLength(count: nat, alphabet: string, k: nat)
    requires 2 <= |alphabet| && k < count
    ensures var p := PlanFor(count, |alphabet|);
            0 < p.depth && |Codes(count, alphabet)[k]| == if k < p.short then p.depth - 1 else p.depth
  {
    PlanFits(count, |alphabet|);
    hide PlanFor, Pow, Digits;
  }

  lemma {:induction false} HintsTotal(count: nat, alphabet: string, k: nat)
    requires 2 <= |alphabet| && k <= count
    ensures var p := PlanFor(count, |alphabet|);
            0 < p.depth && p.short <= count
            && TotalLength(Codes(count, alphabet)[k..]) + (if k < p.short then p.short - k else 0) == p.depth * (count - k)
    decreases count - k
  {
    hide Codes, PlanFor, Pow;
    var codes, p := Codes(count, alphabet), PlanFor(count, |alphabet|);
    PlanFits(count, |alphabet|);
    if k < count {
      HintsTotal(count, alphabet, k + 1);
      HintLength(count, alphabet, k);
      assert codes[k..][0] == codes[k] && codes[k..][1..] == codes[k + 1..];
      Distribute(p.depth, count - k - 1, 1);
    }
  }

  lemma {:induction false} DigitsOver(index: nat, width: nat, alphabet: string)
    requires alphabet != ""
    ensures forall k :: 0 <= k < width ==> Digits(index, width, alphabet)[k] in alphabet
    decreases width
  {
    if width > 0 { DigitsOver(Quot(index, |alphabet|), width - 1, alphabet); }
    hide Quot, Rem;
  }

  // The hints are a prefix-free code over the alphabet themselves.
  lemma {:induction false} HintsAreCode(count: nat, alphabet: string)
    requires 2 <= |alphabet| && Distinct(alphabet)
    ensures var codes := Codes(count, alphabet); PrefixCode(codes) && OverAlphabet(codes, alphabet) && NonEmpty(codes)
  {
    hide PlanFor, Digits;
    HintCodesExact(count, alphabet);
    PlanFits(count, |alphabet|);
    var codes, p := Codes(count, alphabet), PlanFor(count, |alphabet|);
    forall i, k | 0 <= i < |codes| && 0 <= k < |codes[i]| ensures codes[i][k] in alphabet {
      if i < p.short {
        DigitsOver(i, p.depth - 1, alphabet);
      } else {
        DigitsOver(p.short * |alphabet| + (i - p.short), p.depth, alphabet);
      }
    }
  }

  // How much a code in the tree can save against words of full depth.
  lemma {:induction false} RoomForShort(count: nat, r: nat, saved: int)
    requires 2 <= r && count + (r - 1) * saved <= Pow(r, PlanFor(count, r).depth) && 1 < PlanFor(count, r).depth
    ensures saved <= PlanFor(count, r).short
  {
    hide PlanFor;
    PlanFits(count, r);
    var p := PlanFor(count, r);
    var s, q, n := Pow(r, p.depth - 1), r - 1, p.short + 1;
    if n <= saved {
      MulCommutes(q, n);
      MulCommutes(q, saved);
      MulMonotone(n, saved, q);
      SubMul(n, s, r);
      MulPred(n, r);
    }
  }

  lemma {:induction false} DepthNeeded(words: seq<string>, alphabet: string)
    requires 2 <= |alphabet| && PrefixCode(words) && OverAlphabet(words, alphabet) && words != []
    ensures var d := PlanFor(|words|, |alphabet|).depth; 0 < d && (1 < d ==> !NotLonger(words, d - 1))
  {
    hide PlanFor, Pow, Weight, Shorter, NotLonger, PrefixCode, OverAlphabet;
    var r := |alphabet|;
    var d := PlanFor(|words|, r).depth;
    PlanFits(|words|, r);
    if 1 < d && NotLonger(words, d - 1) {
      Kraft(words, alphabet, d - 1);
      WeightShort(words, r, d - 1);
      MulNatural(r - 1, Shorter(words, d - 1));
    }
  }

  lemma {:induction false} AtLeastOneEach(words: seq<string>)
    requires NonEmpty(words)
    ensures TotalLength(words) >= |words|
    decreases |words|
  {
    if words != [] {
      assert NonEmpty(words[1..]) by { forall k | 0 <= k < |words[1..]| ensures words[1..][k] != "" { assert words[1..][k] == words[k + 1]; } }
      AtLeastOneEach(words[1..]);
    }
  }

  lemma {:induction false} NoneShorter(words: seq<string>)
    requires NonEmpty(words)
    ensures Shorter(words, 1) == 0
    decreases |words|
  {
    if words != [] {
      assert NonEmpty(words[1..]) by { forall k | 0 <= k < |words[1..]| ensures words[1..][k] != "" { assert words[1..][k] == words[k + 1]; } }
      NoneShorter(words[1..]);
    }
  }

  // Words that save letters against full depth fill the tree.
  lemma {:induction false} SavedLetters(words: seq<string>, alphabet: string, depth: nat)
    requires 2 <= |alphabet| && PrefixCode(words) && OverAlphabet(words, alphabet)
    ensures |words| + (|alphabet| - 1) * (depth * |words| - TotalLength(words)) <= Pow(|alphabet|, depth)
  {
    hide Pow, Weight, TotalLength, PrefixCode, OverAlphabet;
    var q, n, t := |alphabet| - 1, |words|, TotalLength(words);
    Kraft(words, alphabet, depth);
    WeightTangent(words, |alphabet|, depth);
    Distribute(q, depth * n - t, t);
    MulAssociates(q, depth, n);
  }

  // Among all prefix-free codes of as many non-empty words over the alphabet, none has
  // fewer letters in all, none has a shorter longest word, and none of that depth has
  // more words below it.
  lemma {:induction false} HintCodesOptimal(words: seq<string>, alphabet: string)
    requires 2 <= |alphabet| && Distinct(alphabet) && PrefixCode(words) && OverAlphabet(words, alphabet) && NonEmpty(words)
    ensures var codes, p := Codes(|words|, alphabet), PlanFor(|words|, |alphabet|);
            && TotalLength(codes) <= TotalLength(words)
            && (words != [] ==> exists k :: 0 <= k < |words| && |words[k]| >= p.depth)
            && (NotLonger(words, p.depth) ==> Shorter(words, p.depth) <= p.short)
  {
    hide Codes, PlanFor, PrefixCode, OverAlphabet, Pow;
    var count, r := |words|, |alphabet|;
    var p := PlanFor(count, r);
    HintsTotal(count, alphabet, 0);
    assert Codes(count, alphabet)[0..] == Codes(count, alphabet);
    PlanFits(count, r);
    if words != [] {
      DepthNeeded(words, alphabet);
      if p.depth == 1 { assert |words[0]| >= p.depth; }
    }
    if p.depth == 1 {
      AtLeastOneEach(words);
      NoneShorter(words);
    } else {
      SavedLetters(words, alphabet, p.depth);
      RoomForShort(count, r, p.depth * count - TotalLength(words));
      if NotLonger(words, p.depth) {
        Kraft(words, alphabet, p.depth);
        WeightShort(words, r, p.depth);
        RoomForShort(count, r, Shorter(words, p.depth));
      }
    }
  }
}

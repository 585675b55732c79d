// Label-jump hints for annotation targets: short codes where they fit, all of them
// prefix-free, so that a complete hint can be taken at once.
module HintCodes {
  import opened Wrappers

  const DEFAULT_KEYS := "asdfghjklqwertyuiopzxcvbnm"

  // ---- division by a variable radix ----

  function Quot(i: nat, r: nat): nat
    requires 0 < r
  {
    i / r
  }

  function Rem(i: nat, r: nat): (m: nat)
    requires 0 < r
    ensures m < r
  {
    i % r
  }

  lemma {:induction false} Division(i: nat, r: nat)
    requires 0 < r
    ensures i == Quot(i, r) * r + Rem(i, r)
  {
  }

  lemma {:induction false} MulMonotone(a: nat, b: nat, r: nat)
    requires a <= b
    ensures a * r <= b * r
  {
    assert b * r == a * r + (b - a) * r;
  }

  lemma {:induction false} NextMul(n: nat, r: nat)
    ensures (n + 1) * r == n * r + r
  {
  }

  // Quotient and remainder are unique.
  lemma {:induction false} QuotientRemainder(q: nat, r: nat, c: nat)
    requires c < r
    ensures Quot(q * r + c, r) == q && Rem(q * r + c, r) == c
  {
    hide Quot, Rem;
    var i := q * r + c;
    var p := Quot(i, r);
    Division(i, r);
    if p < q {
      NextMul(p, r);
      MulMonotone(p + 1, q, r);
    } else if q < p {
      NextMul(q, r);
      MulMonotone(q + 1, p, r);
    }
  }

  lemma {:induction false} QuotientBelow(i: nat, r: nat, p: nat)
    requires 0 < r && i < p * r
    ensures Quot(i, r) < p
  {
    hide Quot, Rem;
    Division(i, r);
    if p <= Quot(i, r) { MulMonotone(p, Quot(i, r), r); }
  }

  lemma {:induction false} QuotientAtLeast(p: nat, r: nat, i: nat)
    requires 0 < r && p * r <= i
    ensures p <= Quot(i, r)
  {
    hide Quot, Rem;
    Division(i, r);
    var q := Quot(i, r);
    if q < p {
      NextMul(q, r);
      MulMonotone(q + 1, p, r);
    }
  }

  // ---- base-r numerals ----

  function Pow(r: nat, n: nat): nat {
    if n == 0 then 1 else Pow(r, n - 1) * r
  }

  // The last `width` base-r digits of `index`, most significant first.
  function Digits(index: nat, width: nat, alphabet: string): (s: string)
    requires alphabet != ""
    ensures |s| == width
    decreases width
  {
    if width == 0 then ""
    else Digits(Quot(index, |alphabet|), width - 1, alphabet) + [alphabet[Rem(index, |alphabet|)]]
  }

  predicate Distinct(s: string) {
    forall i, j :: 0 <= i < j < |s| ==> s[i] != s[j]
  }

  lemma {:induction false} SnocEqual(a: string, x: char, b: string, y: char)
    requires a + [x] == b + [y]
    ensures a == b && x == y
  {
    assert |a| == |b|;
    assert a == (a + [x])[..|a|] && b == (b + [y])[..|a|];
    assert x == (a + [x])[|a|] && y == (b + [y])[|a|];
  }

  // Fixed-width numerals below r^width are injective.
  lemma {:induction false} DigitsInjective(i: nat, j: nat, width: nat, alphabet: string)
    requires alphabet != "" && Distinct(alphabet)
    requires i < Pow(|alphabet|, width) && j < Pow(|alphabet|, width)
    requires Digits(i, width, alphabet) == Digits(j, width, alphabet)
    ensures i == j
    decreases width
  {
    hide Quot, Rem;
    var r := |alphabet|;
    if width > 0 {
      SnocEqual(Digits(Quot(i, r), width - 1, alphabet), alphabet[Rem(i, r)], Digits(Quot(j, r), width - 1, alphabet), alphabet[Rem(j, r)]);
      QuotientBelow(i, r, Pow(r, width - 1));
      QuotientBelow(j, r, Pow(r, width - 1));
      DigitsInjective(Quot(i, r), Quot(j, r), width - 1, alphabet);
      Division(i, r);
      Division(j, r);
    }
  }

  // `fixed_width_hint`
  method FixedWidthHint(index: nat, width: nat, alphabet: string) returns (hint: string)
    requires alphabet != ""
    ensures hint == Digits(index, width, alphabet)
  {
    var r := |alphabet|;
    var buffer := new char[width](_ => alphabet[0]);
    var rest: nat, position: nat := index, width;
    while 0 < position
      invariant 0 <= position <= width
      invariant Digits(rest, position, alphabet) + buffer[position..] == Digits(index, width, alphabet)
    {
      hide Quot, Rem;
      position := position - 1;
      ghost var tail := buffer[position + 1..];
      var digit := [alphabet[Rem(rest, r)]];
      buffer[position] := alphabet[Rem(rest, r)];
      assert buffer[position..] == digit + tail;
      assert Digits(Quot(rest, r), position, alphabet) + (digit + tail) == Digits(Quot(rest, r), position, alphabet) + digit + tail;
      rest := Quot(rest, r);
    }
    hint := buffer[..];
    assert buffer[0..] == buffer[..];
  }

  // ---- the code ----

  // The least depth whose full tree has room for `count` leaves.
  function Depth(count: nat, r: nat, d: nat): (depth: nat)
    requires 2 <= r && 0 < d
    ensures d <= depth && count <= Pow(r, depth)
    ensures d < depth ==> Pow(r, depth - 1) < count
    decreases if Pow(r, d) < count then count - Pow(r, d) else 0
  {
    if Pow(r, d) < count then PowGrows(r, d); Depth(count, r, d + 1) else d
  }

  lemma {:induction false} PowPositive(r: nat, d: nat)
    requires 0 < r
    ensures 0 < Pow(r, d)
    decreases d
  {
    if d > 0 {
      PowPositive(r, d - 1);
      MulMonotone(1, Pow(r, d - 1), r);
    }
  }

  lemma {:induction false} PowGrows(r: nat, d: nat)
    requires 2 <= r
    ensures Pow(r, d) < Pow(r, d + 1)
  {
    PowPositive(r, d);
    MulMonotone(2, r, Pow(r, d));
  }

  datatype Plan = Plan(depth: nat, short: nat)

  // How deep the code goes and how many of its hints are one shorter.
  function PlanFor(count: nat, r: nat): Plan
    requires 2 <= r
  {
    var depth := Depth(count, r, 1);
    if depth == 1 then Plan(1, 0)
    else
      var free := Quot(Pow(r, depth) - count, r - 1);
      Plan(depth, if free < Pow(r, depth - 1) then free else Pow(r, depth - 1))
  }

  // Hint `k`: a short leaf, or a full-depth one after all short leaves.
  function HintAt(k: nat, p: Plan, alphabet: string): string
    requires 2 <= |alphabet| && 0 < p.depth
  {
    if k < p.short then Digits(k, p.depth - 1, alphabet)
    else Digits(p.short * |alphabet| + (k - p.short), p.depth, alphabet)
  }

  function Codes(count: nat, alphabet: string): (r: seq<string>)
    requires 2 <= |alphabet|
    ensures |r| == count
  {
    seq(count, k requires 0 <= k < count => HintAt(k, PlanFor(count, |alphabet|), alphabet))
  }

  lemma {:induction false} SubMul(a: nat, b: nat, r: nat)
    requires a <= b
    ensures (b - a) * r == b * r - a * r
  {
  }

  lemma {:induction false} MulPred(a: nat, r: nat)
    requires 0 < r
    ensures a * (r - 1) == a * r - a
  {
  }

  // The plan leaves room for every hint, and one more short hint would not.
  lemma {:induction false} PlanFits(count: nat, r: nat)
    requires 2 <= r
    ensures var p := PlanFor(count, r);
            && 0 < p.depth && count <= Pow(r, p.depth) && (1 < p.depth ==> Pow(r, p.depth - 1) < count)
            && p.short <= count
            && (1 < p.depth ==>
                  && p.short < Pow(r, p.depth - 1)
                  && count <= p.short + (Pow(r, p.depth - 1) - p.short) * r
                  && p.short + 1 + (Pow(r, p.depth - 1) - (p.short + 1)) * r < count)
  {
    hide Quot, Rem;
    var p := PlanFor(count, r);
    if 1 < p.depth {
      FreeLeaves(Pow(r, p.depth - 1), count, r);
    }
  }

  lemma {:induction false} FreeLeaves(s: nat, count: nat, r: nat)
    requires 2 <= r && s < count <= s * r
    ensures var free := Quot(s * r - count, r - 1);
            && free < s && count <= free + (s - free) * r && free + 1 + (s - (free + 1)) * r < count
  {
    hide Quot, Rem;
    var free := Quot(s * r - count, r - 1);
    Division(s * r - count, r - 1);
    MulPred(s, r);
    MulPred(free, r);
    MulPred(free + 1, r);
    assert (free + 1) * (r - 1) == free * (r - 1) + (r - 1);
    if s <= free { MulMonotone(s, free, r - 1); assert false; }
    SubMul(free, s, r);
    SubMul(free + 1, s, r);
  }

  // The numeral of hint `k` is within its width.
  predicate InTree(k: nat, p: Plan, r: nat)
    requires 0 < p.depth
  {
    if k < p.short then k < Pow(r, p.depth - 1) else p.short * r + (k - p.short) < Pow(r, p.depth)
  }

  lemma {:induction false} HintInRange(count: nat, k: nat, r: nat)
    requires 2 <= r && k < count
    ensures 0 < PlanFor(count, r).depth && InTree(k, PlanFor(count, r), r)
  {
    hide Quot, Rem;
    PlanFits(count, r);
    var p := PlanFor(count, r);
    if 1 < p.depth { SubMul(p.short, Pow(r, p.depth - 1), r); }
  }

  predicate IsPrefix(s: string, t: string) {
    |s| <= |t| && t[..|s|] == s
  }

  // In any plan, no hint is a prefix of another.
  lemma {:induction false} PlanPrefixFree(p: Plan, alphabet: string, i: nat, j: nat)
    requires 2 <= |alphabet| && Distinct(alphabet) && 0 < p.depth && InTree(i, p, |alphabet|) && InTree(j, p, |alphabet|)
    requires IsPrefix(HintAt(i, p, alphabet), HintAt(j, p, alphabet))
    ensures i == j
  {
    hide Quot, Rem;
    var r := |alphabet|;
    var s, t := HintAt(i, p, alphabet), HintAt(j, p, alphabet);
    if |s| == |t| {
      assert t[..|s|] == t;
      if i < p.short {
        DigitsInjective(i, j, p.depth - 1, alphabet);
      } else {
        DigitsInjective(p.short * r + (i - p.short), p.short * r + (j - p.short), p.depth, alphabet);
      }
    } else {
      var c := p.short * r + (j - p.short);
      UpperDigits(c, p.depth, alphabet);
      QuotientAtLeast(p.short, r, c);
      QuotientBelow(c, r, Pow(r, p.depth - 1));
      DigitsInjective(i, Quot(c, r), p.depth - 1, alphabet);
    }
  }

  lemma {:induction false} PrefixFree(count: nat, alphabet: string, i: nat, j: nat)
    requires 2 <= |alphabet| && Distinct(alphabet) && i < count && j < count
    requires IsPrefix(Codes(count, alphabet)[i], Codes(count, alphabet)[j])
    ensures i == j
  {
    hide PlanFor, HintAt, InTree;
    HintInRange(count, i, |alphabet|);
    HintInRange(count, j, |alphabet|);
    PlanPrefixFree(PlanFor(count, |alphabet|), alphabet, i, j);
  }

  lemma {:induction false} UpperDigits(c: nat, depth: nat, alphabet: string)
    requires alphabet != "" && 0 < depth
    ensures Digits(c, depth, alphabet)[..depth - 1] == Digits(Quot(c, |alphabet|), depth - 1, alphabet)
  {
    hide Quot, Rem;
  }

  // What the caller relies on: as many hints as targets, all different, none a prefix
  // of another, of two adjacent lengths at most.  That no other code does better is
  // `HintOptimality.HintCodesOptimal`.
  lemma {:induction false} HintCodesExact(count: nat, alphabet: string)
    requires 2 <= |alphabet| && Distinct(alphabet)
    ensures var codes, p, r := Codes(count, alphabet), PlanFor(count, |alphabet|), |alphabet|;
            && |codes| == count
            && (forall i, j :: 0 <= i < count && 0 <= j < count && IsPrefix(codes[i], codes[j]) ==> i == j)
            && (forall i :: 0 <= i < count ==> |codes[i]| == if i < p.short then p.depth - 1 else p.depth)
            && (forall i :: 0 <= i < count ==> codes[i] != "")
            && (1 < p.depth ==> Pow(r, p.depth - 1) < count)
            && (1 < p.depth ==> p.short + 1 + (Pow(r, p.depth - 1) - (p.short + 1)) * r < count)
  {
    PlanFits(count, |alphabet|);
    var codes := Codes(count, alphabet);
    forall i, j | 0 <= i < count && 0 <= j < count && IsPrefix(codes[i], codes[j]) ensures i == j {
      PrefixFree(count, alphabet, i, j);
    }
  }

  // A hint typed to its end selects one target.
  lemma {:induction false} CompleteHintSelectsOne(count: nat, alphabet: string, i: nat)
    requires 2 <= |alphabet| && Distinct(alphabet) && i < count
    ensures var codes := Codes(count, alphabet);
            (set j | 0 <= j < count && IsPrefix(codes[i], codes[j])) == {i}
  {
    var codes := Codes(count, alphabet);
    assert codes[i][..|codes[i]|] == codes[i];
    forall j | 0 <= j < count && IsPrefix(codes[i], codes[j]) ensures j == i {
      PrefixFree(count, alphabet, i, j);
    }
  }

  // ---- the loops of the source ----

  function SaturatingMul(a: nat, b: nat): nat {
    if a * b <= USIZE_MAX then a * b else USIZE_MAX
  }

  function Alphabet(keys: string): (a: string)
    ensures 2 <= |a|
  {
    if |keys| < 2 then DEFAULT_KEYS else keys
  }

  // Where each letter from a to z is among the default keys.
  const KEY_INDEX := [0, 23, 21, 2, 11, 3, 4, 5, 16, 6, 7, 8, 25, 24, 17, 18, 9, 12, 1, 13, 15, 22, 10, 20, 14, 19]

  lemma {:induction false} DefaultKeyAt(i: nat)
    requires i < |DEFAULT_KEYS|
    ensures var n := DEFAULT_KEYS[i] as int - 97; 0 <= n < |KEY_INDEX| && KEY_INDEX[n] == i
  {
  }

  // The alphabet used when too few keys are configured meets what the theorems ask for.
  lemma {:induction false} DefaultKeysDistinct()
    ensures Distinct(DEFAULT_KEYS) && 2 <= |DEFAULT_KEYS|
  {
    assert |DEFAULT_KEYS| == 26;
    forall i: nat, j: nat | 0 <= i < j < |DEFAULT_KEYS| ensures DEFAULT_KEYS[i] != DEFAULT_KEYS[j] {
      DefaultKeyAt(i);
      DefaultKeyAt(j);
    }
  }

  datatype Grown = Grown(depth: nat, capacity: nat)

  // The depth loop.
  function Grow(count: nat, r: nat, g: Grown): (h: Grown)
    requires count <= USIZE_MAX && 2 <= r && 0 < g.capacity <= USIZE_MAX && 0 < g.depth
    ensures count <= h.capacity <= USIZE_MAX && 0 < h.depth
    decreases USIZE_MAX - g.capacity
  {
    if g.capacity < count then
      MulMonotone(2, r, g.capacity);
      Grow(count, r, Grown(g.depth + 1, SaturatingMul(g.capacity, r)))
    else g
  }

  // Depth and size of the tree as the machine computes them.
  function Tree(count: nat, r: nat): (h: Grown)
    requires count <= USIZE_MAX && 2 <= r <= USIZE_MAX
    ensures count <= h.capacity <= USIZE_MAX && 0 < h.depth
  {
    Grow(count, r, Grown(1, r))
  }

  // How deep the machine's code goes, and how many of its hints are one shorter.
  function MachinePlan(count: nat, r: nat): (p: Plan)
    requires count <= USIZE_MAX && 2 <= r <= USIZE_MAX
    ensures 0 < p.depth
  {
    var g := Tree(count, r);
    if g.depth == 1 then Plan(1, 0)
    else
      var free, shorter := Quot(g.capacity - count, r - 1), Quot(g.capacity, r);
      Plan(g.depth, if free < shorter then free else shorter)
  }

  // How many hints there is room for.
  function Room(count: nat, r: nat): (n: nat)
    requires count <= USIZE_MAX && 2 <= r <= USIZE_MAX
  {
    var p, shorter := MachinePlan(count, r), Quot(Tree(count, r).capacity, r);
    if p.depth == 1 then count
    else p.short + (if p.short <= shorter then (shorter - p.short) * r else 0)
  }

  function MachineCodes(count: nat, alphabet: string): seq<string>
    requires count <= USIZE_MAX && 2 <= |alphabet| <= USIZE_MAX
  {
    var n := if count < Room(count, |alphabet|) then count else Room(count, |alphabet|);
    seq(n, k requires 0 <= k < n => HintAt(k, MachinePlan(count, |alphabet|), alphabet))
  }

  // `annotation_hint_codes`
  method AnnotationHintCodes(count: nat, keys: string) returns (hints: seq<string>)
    requires count <= USIZE_MAX && |keys| <= USIZE_MAX
    ensures hints == if count == 0 then [] else MachineCodes(count, Alphabet(keys))
  {
    hide Quot, Rem, Digits, Pow, HintAt;
    if count == 0 { return []; }
    var alphabet := Alphabet(keys);
    var r := |alphabet|;
    var depth, capacity := GrowCapacity(count, r);
    if depth == 1 {
      hints := [];
      for index := 0 to count
        invariant |hints| == index && forall k :: 0 <= k < index ==> hints[k] == HintAt(k, Plan(1, 0), alphabet)
      {
        ShallowHint(index, alphabet);
        var hint := FixedWidthHint(index, 1, alphabet);
        hints := hints + [hint];
      }
      return;
    }
    var shorter := Quot(capacity, r);
    var free := Quot(capacity - count, r - 1);
    var short := if free < shorter then free else shorter;
    ShortIsFew(count, r);
    hints := MixedHints(count, depth, short, shorter, alphabet);
  }

  lemma {:induction false} ShallowHint(k: nat, alphabet: string)
    requires 2 <= |alphabet|
    ensures HintAt(k, Plan(1, 0), alphabet) == Digits(k, 1, alphabet)
  {
    hide Digits;
  }

  method GrowCapacity(count: nat, r: nat) returns (depth: nat, capacity: nat)
    requires count <= USIZE_MAX && 2 <= r <= USIZE_MAX
    ensures Grown(depth, capacity) == Tree(count, r)
  {
    depth, capacity := 1, r;
    while capacity < count
      invariant 1 <= depth && 0 < capacity <= USIZE_MAX
      invariant Grow(count, r, Grown(depth, capacity)) == Tree(count, r)
      decreases USIZE_MAX - capacity
    {
      MulMonotone(2, r, capacity);
      depth, capacity := depth + 1, SaturatingMul(capacity, r);
    }
  }

  // The short hints and then the fan-out of the remaining prefixes.
  method MixedHints(count: nat, depth: nat, short: nat, shorter: nat, alphabet: string) returns (hints: seq<string>)
    requires 2 <= |alphabet| && 1 < depth && short <= shorter && short <= count
    ensures var room := short + (shorter - short) * |alphabet|;
            && |hints| == (if count < room then count else room)
            && forall k :: 0 <= k < |hints| ==> hints[k] == HintAt(k, Plan(depth, short), alphabet)
  {
    hide Quot, Rem, Digits, HintAt;
    var r := |alphabet|;
    hints := [];
    for index := 0 to short
      invariant |hints| == index && forall k :: 0 <= k < index ==> hints[k] == HintAt(k, Plan(depth, short), alphabet)
    {
      var hint := FixedWidthHint(index, depth - 1, alphabet);
      ShortHint(index, short, depth, alphabet);
      hints := hints + [hint];
    }
    var remaining: nat := count - short;
    var index: nat := short;
    while index < shorter && remaining != 0
      invariant short <= index <= shorter
      invariant |hints| + remaining == count
      invariant short <= |hints| && forall k :: 0 <= k < |hints| ==> hints[k] == HintAt(k, Plan(depth, short), alphabet)
      invariant remaining != 0 ==> |hints| - short == (index - short) * r
      invariant |hints| - short <= (index - short) * r
    {
      var prefix := FixedWidthHint(index, depth - 1, alphabet);
      var c: nat := 0;
      ghost var before := |hints|;
      while c < r && remaining != 0
        invariant c <= r && |hints| == before + c && |hints| + remaining == before + remaining + c
        invariant |hints| + remaining == count
        invariant forall k :: 0 <= k < |hints| ==> hints[k] == HintAt(k, Plan(depth, short), alphabet)
      {
        LongHint(short, index, c, before, depth, alphabet);
        hints := hints + [prefix + [alphabet[c]]];
        remaining, c := remaining - 1, c + 1;
      }
      NextMul(index - short, r);
      index := index + 1;
    }
    MulMonotone(index - short, shorter - short, r);
  }

  // ---- the machine's code and the one above ----

  // The saturating loop stops at the least depth too.
  lemma {:induction false} GrowIsDepth(count: nat, r: nat, g: Grown)
    requires count <= USIZE_MAX && 2 <= r && 0 < g.depth && g.capacity == Capped(r, g.depth)
    requires 0 < g.capacity
    ensures var h := Grow(count, r, g); h.depth == Depth(count, r, g.depth) && h.capacity == Capped(r, h.depth)
    decreases USIZE_MAX - g.capacity
  {
    hide Pow;
    if g.capacity < count {
      assert Pow(r, g.depth) < count;
      MulMonotone(2, r, g.capacity);
      PowNext(r, g.depth);
      GrowIsDepth(count, r, Grown(g.depth + 1, SaturatingMul(g.capacity, r)));
    }
  }

  lemma {:induction false} PowNext(r: nat, d: nat)
    ensures Pow(r, d + 1) == Pow(r, d) * r && Pow(r, 1) == r
  {
    assert Pow(r, 1) == Pow(r, 0) * r == r;
  }

  function Capped(r: nat, d: nat): nat {
    if Pow(r, d) <= USIZE_MAX then Pow(r, d) else USIZE_MAX
  }

  lemma {:induction false} TreeIs(count: nat, r: nat)
    requires count <= USIZE_MAX && 2 <= r <= USIZE_MAX
    ensures var g := Tree(count, r); g.depth == Depth(count, r, 1) && g.capacity == Capped(r, g.depth)
  {
    hide Pow;
    PowNext(r, 0);
    GrowIsDepth(count, r, Grown(1, r));
  }

  // While the tree fits a machine word the machine computes the code above.
  lemma {:induction false} MachineCodesFit(count: nat, alphabet: string)
    requires 0 < count <= USIZE_MAX && 2 <= |alphabet| <= USIZE_MAX
    requires Pow(|alphabet|, PlanFor(count, |alphabet|).depth) <= USIZE_MAX
    ensures MachineCodes(count, alphabet) == Codes(count, alphabet)
  {
    hide Quot, Rem, Pow, HintAt, Grow, Tree;
    var r := |alphabet|;
    TreeIs(count, r);
    var p := PlanFor(count, r);
    PlanFits(count, r);
    if 1 < p.depth { PowQuotient(r, p.depth - 1); }
  }

  // It does for as many keys and targets as 32 bits can count.
  lemma {:induction false} MostCodesFit(count: nat, alphabet: string)
    requires 0 < count <= 0x1_0000_0000 && 2 <= |alphabet| <= 0x1_0000_0000
    ensures MachineCodes(count, alphabet) == Codes(count, alphabet)
  {
    hide Pow, PlanFor, MachineCodes, Codes;
    var r, d := |alphabet|, PlanFor(count, |alphabet|).depth;
    PlanFits(count, r);
    PowNext(r, 0);
    if 1 < d {
      PowNext(r, d - 1);
      MulMonotone(Pow(r, d - 1), 0xFFFF_FFFF, r);
    }
    MachineCodesFit(count, alphabet);
  }

  // Past it, a tree with a full last level one short of `Quot(USIZE_MAX, r)` prefixes.
  lemma {:induction false} OutgrownPlan(count: nat, r: nat)
    requires 0 < count <= USIZE_MAX && 2 <= r <= USIZE_MAX && USIZE_MAX < Pow(r, Depth(count, r, 1))
    ensures var p, shorter := MachinePlan(count, r), Quot(USIZE_MAX, r);
            && 1 < p.depth == Depth(count, r, 1) && Tree(count, r).capacity == USIZE_MAX
            && shorter < Pow(r, p.depth - 1) < count
            && p.short == Quot(USIZE_MAX - count, r - 1) <= shorter
  {
    hide Quot, Rem, Pow, Grow, Tree, Depth;
    TreeIs(count, r);
    PowNext(r, 0);
    var d := Depth(count, r, 1);
    DepthIs(count, r);
    PowNext(r, d - 1);
    var s, shorter := Pow(r, d - 1), Quot(USIZE_MAX, r);
    QuotientBelow(USIZE_MAX, r, s);
    Division(USIZE_MAX, r);
    MulPred(shorter + 1, r);
    NextMul(shorter, r);
    QuotientBelow(USIZE_MAX - count, r - 1, shorter + 1);
  }

  lemma {:induction false} DepthIs(count: nat, r: nat)
    requires 2 <= r
    ensures var d := Depth(count, r, 1); 1 <= d && count <= Pow(r, d) && (1 < d ==> Pow(r, d - 1) < count)
  {
  }

  // The machine's hints are too few by what the divisions lose.
  lemma {:induction false} OutgrownRoom(count: nat, r: nat)
    requires 0 < count <= USIZE_MAX && 2 <= r <= USIZE_MAX && USIZE_MAX < Pow(r, Depth(count, r, 1))
    ensures Room(count, r) == count + Rem(USIZE_MAX - count, r - 1) - Rem(USIZE_MAX, r)
  {
    hide Quot, Rem, Pow, Grow, Tree, Depth, MachinePlan;
    OutgrownPlan(count, r);
    var short, shorter := MachinePlan(count, r).short, Quot(USIZE_MAX, r);
    Division(USIZE_MAX, r);
    Division(USIZE_MAX - count, r - 1);
    SubMul(short, shorter, r);
    MulPred(short, r);
  }

  lemma {:induction false} ShortIsFew(count: nat, r: nat)
    requires 0 < count <= USIZE_MAX && 2 <= r <= USIZE_MAX
    ensures MachinePlan(count, r).short <= count
    ensures MachinePlan(count, r).depth > 1 ==> MachinePlan(count, r).short <= Quot(Tree(count, r).capacity, r)
  {
    hide Quot, Rem, Pow, Grow, Tree, Depth;
    TreeIs(count, r);
    PlanFits(count, r);
    if USIZE_MAX < Pow(r, Depth(count, r, 1)) {
      OutgrownPlan(count, r);
    } else if 1 < Depth(count, r, 1) {
      PowQuotient(r, Depth(count, r, 1) - 1);
    }
  }

  lemma {:induction false} MachineInTree(count: nat, k: nat, r: nat)
    requires 0 < count <= USIZE_MAX && 2 <= r <= USIZE_MAX && k < count && k < Room(count, r)
    ensures InTree(k, MachinePlan(count, r), r)
  {
    hide Quot, Rem, Pow, Grow, Tree, Depth, MachinePlan;
    var p := MachinePlan(count, r);
    if USIZE_MAX < Pow(r, Depth(count, r, 1)) {
      OutgrownPlan(count, r);
      var shorter := Quot(USIZE_MAX, r);
      SubMul(p.short, shorter, r);
      MulMonotone(shorter, Pow(r, p.depth - 1), r);
      PowNext(r, p.depth - 1);
    } else {
      MachinePlanFits(count, r);
      HintInRange(count, k, r);
    }
  }

  lemma {:induction false} MachinePlanFits(count: nat, r: nat)
    requires 0 < count <= USIZE_MAX && 2 <= r <= USIZE_MAX && Pow(r, Depth(count, r, 1)) <= USIZE_MAX
    ensures MachinePlan(count, r) == PlanFor(count, r)
  {
    hide Quot, Rem, Pow, Grow, Tree, Depth;
    TreeIs(count, r);
    if 1 < Depth(count, r, 1) { PowQuotient(r, Depth(count, r, 1) - 1); }
  }

  // For every number of targets a machine can count: the hints are never prefixes of one
  // another, there are never more than targets, and there are as many exactly when the
  // full tree's size fits a machine word or the divisions of the saturated product lose
  // nothing.
  lemma {:induction false} MachineCodesExact(count: nat, alphabet: string)
    requires 0 < count <= USIZE_MAX && 2 <= |alphabet| <= USIZE_MAX && Distinct(alphabet)
    ensures var codes, r := MachineCodes(count, alphabet), |alphabet|;
            && (forall i, j :: 0 <= i < |codes| && 0 <= j < |codes| && IsPrefix(codes[i], codes[j]) ==> i == j)
            && |codes| <= count
            && (|codes| == count <==>
                  || Pow(r, Depth(count, r, 1)) <= USIZE_MAX
                  || Rem(USIZE_MAX, r) <= Rem(USIZE_MAX - count, r - 1))
  {
    hide Quot, Rem, Pow, Depth, HintAt, MachinePlan, InTree, PlanFor;
    var codes, r := MachineCodes(count, alphabet), |alphabet|;
    forall i, j | 0 <= i < |codes| && 0 <= j < |codes| && IsPrefix(codes[i], codes[j]) ensures i == j {
      MachineInTree(count, i, r);
      MachineInTree(count, j, r);
      PlanPrefixFree(MachinePlan(count, r), alphabet, i, j);
    }
    if USIZE_MAX < Pow(r, Depth(count, r, 1)) {
      OutgrownRoom(count, r);
    } else {
      assert PlanFor(count, r).depth == Depth(count, r, 1) by { PlanDepth(count, r); }
      MachineCodesFit(count, alphabet);
    }
  }

  lemma {:induction false} PlanDepth(count: nat, r: nat)
    requires 2 <= r
    ensures PlanFor(count, r).depth == Depth(count, r, 1)
  {
    hide Quot, Pow, Depth;
  }

  // With seven keys and the largest count there is one hint too few.
  lemma {:induction false} SevenKeys(alphabet: string)
    requires |alphabet| == 7 && Distinct(alphabet)
    ensures |MachineCodes(USIZE_MAX, alphabet)| == USIZE_MAX - 1
  {
    hide Pow, Depth, MachineCodes, Room;
    DepthIs(USIZE_MAX, 7);
    var d := Depth(USIZE_MAX, 7, 1);
    PowNext(7, d - 1);
    MachineCodesExact(USIZE_MAX, alphabet);
    OutgrownRoom(USIZE_MAX, 7);
    RoomDecides(USIZE_MAX, alphabet);
  }

  lemma {:induction false} RoomDecides(count: nat, alphabet: string)
    requires 0 < count <= USIZE_MAX && 2 <= |alphabet| <= USIZE_MAX
    ensures |MachineCodes(count, alphabet)| == if count < Room(count, |alphabet|) then count else Room(count, |alphabet|)
  {
    hide Room, HintAt, MachinePlan;
  }

  lemma {:induction false} PowQuotient(r: nat, n: nat)
    requires 2 <= r
    ensures Quot(Pow(r, n + 1), r) == Pow(r, n)
  {
    QuotientRemainder(Pow(r, n), r, 0);
  }

  lemma {:induction false} PowWithin(r: nat, d: nat, goal: nat)
    requires 2 <= r && d <= goal
    ensures Pow(r, d) <= Pow(r, goal)
    decreases goal - d
  {
    if d < goal {
      PowGrows(r, d);
      PowWithin(r, d + 1, goal);
    }
  }

  lemma {:induction false} ShortHint(k: nat, short: nat, depth: nat, alphabet: string)
    requires 2 <= |alphabet| && k < short && 0 < depth
    ensures Digits(k, depth - 1, alphabet) == HintAt(k, Plan(depth, short), alphabet)
  {
  }

  lemma {:induction false} DigitsSnoc(q: nat, c: nat, depth: nat, alphabet: string)
    requires c < |alphabet| && 0 < depth
    ensures Digits(q * |alphabet| + c, depth, alphabet) == Digits(q, depth - 1, alphabet) + [alphabet[c]]
  {
    hide Quot, Rem;
    QuotientRemainder(q, |alphabet|, c);
  }

  // A prefix and one more character is the next full-depth numeral.
  lemma {:induction false} LongHint(short: nat, prefix: nat, c: nat, before: nat, depth: nat, alphabet: string)
    requires 2 <= |alphabet| && c < |alphabet| && short <= prefix && 0 < depth && short <= before
    requires before - short == (prefix - short) * |alphabet|
    ensures Digits(prefix, depth - 1, alphabet) + [alphabet[c]] == HintAt(before + c, Plan(depth, short), alphabet)
  {
    hide Quot, Rem, Digits;
    SubMul(short, prefix, |alphabet|);
    DigitsSnoc(prefix, c, depth, alphabet);
  }
}

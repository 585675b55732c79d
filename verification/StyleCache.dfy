// The scope table's two-slot style cache: a mutable cache with round-robin eviction
// that must never be seen, apart from how often it resolves.
module StyleCache {
  import opened Wrappers

  const SLOTS := 2

  datatype ThemeStyles<Style> = ThemeStyles(theme: nat, styles: seq<Option<Style>>)

  // `stacks` counts the scope stacks of the table; stack references are below it.
  datatype Cache<Style> = Cache(stacks: nat, slots: seq<ThemeStyles<Style>>, next: nat, hits: nat, misses: nat)

  datatype Op = Push | Lookup(theme: nat, stack: nat)

  function Fresh<Style>(): Cache<Style> {
    Cache(1, [ThemeStyles(0, [None]), ThemeStyles(0, [None])], 0, 0, 0)
  }

  predicate Valid<Style>(c: Cache<Style>) {
    |c.slots| == SLOTS && c.next < SLOTS && forall s :: 0 <= s < SLOTS ==> |c.slots[s].styles| == c.stacks
  }

  function Nones<Style>(n: nat): (r: seq<Option<Style>>)
    ensures |r| == n && forall i :: 0 <= i < n ==> r[i] == None
  {
    seq(n, i => None)
  }

  function Pushed<Style>(c: Cache<Style>): Cache<Style>
    requires Valid(c)
  {
    c.(stacks := c.stacks + 1,
       slots := seq(SLOTS, s requires 0 <= s < SLOTS => c.slots[s].(styles := c.slots[s].styles + [None])))
  }

  // The slot a lookup works in: the first that has the theme, otherwise the next victim.
  function SlotFor<Style>(c: Cache<Style>, theme: nat): nat
    requires Valid(c)
  {
    if c.slots[0].theme == theme then 0 else if c.slots[1].theme == theme then 1 else c.next
  }

  function Claimed<Style>(c: Cache<Style>, theme: nat): Cache<Style>
    requires Valid(c)
  {
    if c.slots[SlotFor(c, theme)].theme == theme then c
    else c.(next := (c.next + 1) % SLOTS, slots := c.slots[c.next := ThemeStyles(theme, Nones(c.stacks))])
  }

  predicate Cached<Style>(c: Cache<Style>, theme: nat, stack: nat)
    requires Valid(c)
  {
    var slot := c.slots[SlotFor(c, theme)];
    slot.theme == theme && stack < c.stacks && slot.styles[stack].Some?
  }

  // A lookup: the cache it leaves, the style it returns and whether it had to resolve.
  function Looked<Style>(c: Cache<Style>, theme: nat, stack: nat, direct: (nat, nat) -> Style, diagnostics: bool)
    : (Cache<Style>, Style, bool)
    requires Valid(c)
  {
    var slot := SlotFor(c, theme);
    var d := Claimed(c, theme);
    if stack < c.stacks && d.slots[slot].styles[stack].Some? then
      (d.(hits := d.hits + if diagnostics then 1 else 0), d.slots[slot].styles[stack].value, false)
    else
      var e := d.(misses := d.misses + if diagnostics then 1 else 0);
      var style := direct(theme, stack);
      (if stack < c.stacks then e.(slots := e.slots[slot := e.slots[slot].(styles := e.slots[slot].styles[stack := Some(style)])]) else e,
       style, true)
  }

  // Every cached style is what resolving its stack under its theme gives.
  ghost predicate Faithful<Style(!new)>(c: Cache<Style>, direct: (nat, nat) -> Style) {
    Valid(c) && forall s, i :: 0 <= s < SLOTS && 0 <= i < c.stacks && c.slots[s].styles[i].Some? ==>
      c.slots[s].styles[i].value == direct(c.slots[s].theme, i)
  }

  lemma {:induction false} PushFaithful<Style(!new)>(c: Cache<Style>, direct: (nat, nat) -> Style)
    requires Faithful(c, direct)
    ensures Faithful(Pushed(c), direct)
  {
  }

  lemma {:induction false} LookupAgrees<Style(!new)>(c: Cache<Style>, theme: nat, stack: nat, direct: (nat, nat) -> Style, diagnostics: bool)
    requires Faithful(c, direct)
    ensures Faithful(Looked(c, theme, stack, direct, diagnostics).0, direct)
    ensures Looked(c, theme, stack, direct, diagnostics).1 == direct(theme, stack)
  {
  }

  // ---- whole runs ----

  // The styles a run of operations returns, the (theme, stack) pairs it resolved while
  // the stack existed, and the cache at the end.
  datatype Trace<Style> = Trace(styles: seq<Style>, resolved: seq<(nat, nat)>, cache: Cache<Style>)

  ghost function Run<Style(!new)>(c: Cache<Style>, ops: seq<Op>, direct: (nat, nat) -> Style, diagnostics: bool): Trace<Style>
    requires Faithful(c, direct)
    decreases |ops|
  {
    if ops == [] then Trace([], [], c)
    else
      match ops[0]
      case Push =>
        PushFaithful(c, direct);
        Run(Pushed(c), ops[1..], direct, diagnostics)
      case Lookup(theme, stack) =>
        LookupAgrees(c, theme, stack, direct, diagnostics);
        var (d, style, resolved) := Looked(c, theme, stack, direct, diagnostics);
        var rest := Run(d, ops[1..], direct, diagnostics);
        Trace([style] + rest.styles, (if resolved && stack < c.stacks then [(theme, stack)] else []) + rest.resolved, rest.cache)
  }

  // Resolving every lookup directly, without a cache.
  function Direct<Style>(ops: seq<Op>, direct: (nat, nat) -> Style): seq<Style> {
    if ops == [] then []
    else if ops[0].Push? then Direct(ops[1..], direct)
    else [direct(ops[0].theme, ops[0].stack)] + Direct(ops[1..], direct)
  }

  function Pushes(ops: seq<Op>): nat {
    if ops == [] then 0 else (if ops[0].Push? then 1 else 0) + Pushes(ops[1..])
  }

  // The cache is invisible: any interleaving of pushes and lookups, for any themes,
  // returns what direct resolution returns, and both slots stay as long as the table.
  lemma {:induction false} CacheIsInvisible<Style(!new)>(c: Cache<Style>, ops: seq<Op>, direct: (nat, nat) -> Style, diagnostics: bool)
    requires Faithful(c, direct)
    ensures Run(c, ops, direct, diagnostics).styles == Direct(ops, direct)
    ensures var end := Run(c, ops, direct, diagnostics).cache;
            Faithful(end, direct) && end.stacks == c.stacks + Pushes(ops)
    ensures var end := Run(c, ops, direct, true).cache;
            end.hits + end.misses == c.hits + c.misses + |Direct(ops, direct)|
    decreases |ops|
  {
    if ops != [] {
      match ops[0]
      case Push =>
        PushFaithful(c, direct);
        CacheIsInvisible(Pushed(c), ops[1..], direct, diagnostics);
      case Lookup(theme, stack) =>
        LookupAgrees(c, theme, stack, direct, diagnostics);
        LookupAgrees(c, theme, stack, direct, true);
        CacheIsInvisible(Looked(c, theme, stack, direct, diagnostics).0, ops[1..], direct, diagnostics);
        CacheIsInvisible(Looked(c, theme, stack, direct, true).0, ops[1..], direct, true);
    }
  }

  predicate UsesOnly(ops: seq<Op>, a: nat, b: nat) {
    forall i :: 0 <= i < |ops| && ops[i].Lookup? ==> ops[i].theme == a || ops[i].theme == b
  }

  // Slots are claimed in order and, with two themes at most, never taken back.
  predicate Settled<Style>(c: Cache<Style>, a: nat, b: nat) {
    && Valid(c)
    && (c.slots[0].theme == 0 ==> c.slots[1].theme == 0)
    && c.next == (if c.slots[0].theme != 0 && c.slots[1].theme == 0 then 1 else 0)
    && (forall s :: 0 <= s < SLOTS ==> c.slots[s].theme in {0, a, b})
    && (c.slots[0].theme != 0 ==> c.slots[0].theme != c.slots[1].theme)
  }

  // Claiming a slot forgets nothing about the two themes.
  lemma {:induction false} SettledClaim<Style(!new)>(c: Cache<Style>, a: nat, b: nat, theme: nat)
    requires Settled(c, a, b) && 0 < a && 0 < b && theme in {a, b}
    ensures var d := Claimed(c, theme);
            && Settled(d, a, b) && d.stacks == c.stacks
            && SlotFor(d, theme) == SlotFor(c, theme) && d.slots[SlotFor(d, theme)].theme == theme
            && (forall i :: Cached(d, theme, i) <==> Cached(c, theme, i))
            && forall t, i :: t in {a, b} && Cached(c, t, i) ==> Cached(d, t, i)
  {
  }

  // Filling one entry of a claimed slot.
  lemma {:induction false} SettledFill<Style(!new)>(d: Cache<Style>, a: nat, b: nat, theme: nat, stack: nat, style: Style, hits: nat, misses: nat)
    requires Settled(d, a, b) && d.slots[SlotFor(d, theme)].theme == theme && stack < d.stacks
    ensures var slot := SlotFor(d, theme);
            var e := d.(hits := hits, misses := misses,
                        slots := d.slots[slot := d.slots[slot].(styles := d.slots[slot].styles[stack := Some(style)])]);
            && Settled(e, a, b) && Cached(e, theme, stack)
            && forall t, i :: Cached(d, t, i) ==> Cached(e, t, i)
  {
  }

  lemma {:induction false} SettledLookup<Style(!new)>(c: Cache<Style>, a: nat, b: nat, theme: nat, stack: nat, direct: (nat, nat) -> Style, diagnostics: bool)
    requires Settled(c, a, b) && 0 < a && 0 < b && theme in {a, b}
    ensures var (e, _, resolved) := Looked(c, theme, stack, direct, diagnostics);
            && Settled(e, a, b)
            && (resolved <==> !Cached(c, theme, stack))
            && (stack < c.stacks ==> Cached(e, theme, stack))
            && forall t, i :: t in {a, b} && Cached(c, t, i) ==> Cached(e, t, i)
  {
    SettledClaim(c, a, b, theme);
    var d := Claimed(c, theme);
    hide Claimed;
    if stack < c.stacks && !Cached(d, theme, stack) {
      SettledFill(d, a, b, theme, stack, direct(theme, stack), d.hits, d.misses + if diagnostics then 1 else 0);
    }
  }

  lemma {:induction false} SettledPush<Style(!new)>(c: Cache<Style>, a: nat, b: nat)
    requires Settled(c, a, b)
    ensures Settled(Pushed(c), a, b) && forall t, i :: Cached(c, t, i) ==> Cached(Pushed(c), t, i)
  {
  }

  predicate NoRepeat(pairs: seq<(nat, nat)>) {
    forall i, j :: 0 <= i < j < |pairs| ==> pairs[i] != pairs[j]
  }

  predicate Uncached<Style>(c: Cache<Style>, pairs: seq<(nat, nat)>, a: nat, b: nat)
    requires Valid(c)
  {
    forall p :: p in pairs ==> p.0 in {a, b} && !Cached(c, p.0, p.1)
  }

  // A run that uses at most two themes, neither of them zero, resolves no pair twice
  // and none that is cached already.
  lemma {:induction false} ResolvesOnce<Style(!new)>(c: Cache<Style>, ops: seq<Op>, a: nat, b: nat, direct: (nat, nat) -> Style, diagnostics: bool)
    requires Faithful(c, direct) && Settled(c, a, b) && 0 < a && 0 < b && UsesOnly(ops, a, b)
    ensures NoRepeat(Run(c, ops, direct, diagnostics).resolved)
    ensures Uncached(c, Run(c, ops, direct, diagnostics).resolved, a, b)
    decreases |ops|
  {
    hide Faithful, Pushed, Looked, SlotFor;
    if ops != [] {
      assert UsesOnly(ops[1..], a, b);
      match ops[0]
      case Push =>
        PushFaithful(c, direct);
        SettledPush(c, a, b);
        ResolvesOnce(Pushed(c), ops[1..], a, b, direct, diagnostics);
      case Lookup(theme, stack) =>
        LookupAgrees(c, theme, stack, direct, diagnostics);
        SettledLookup(c, a, b, theme, stack, direct, diagnostics);
        ResolvesOnce(Looked(c, theme, stack, direct, diagnostics).0, ops[1..], a, b, direct, diagnostics);
    }
  }

  // So from a fresh table each in-range pair is resolved at most once.
  lemma {:induction false} FreshResolvesOnce<Style(!new)>(ops: seq<Op>, a: nat, b: nat, direct: (nat, nat) -> Style, diagnostics: bool)
    requires 0 < a && 0 < b && UsesOnly(ops, a, b)
    ensures NoRepeat(Run(Fresh<Style>(), ops, direct, diagnostics).resolved)
  {
    ResolvesOnce(Fresh<Style>(), ops, a, b, direct, diagnostics);
  }

  // ---- how many themes stay resolved ----

  // Every lookup of the run is for one of these themes.
  predicate Within(ops: seq<Op>, themes: set<nat>) {
    forall i :: 0 <= i < |ops| && ops[i].Lookup? ==> ops[i].theme in themes
  }

  // A run in which all lookups are for stack 0, in a table as it starts.
  lemma {:induction false} LookupAgain<Style(!new)>(c: Cache<Style>, theme: nat, rest: seq<Op>, direct: (nat, nat) -> Style, diagnostics: bool)
    requires Faithful(c, direct) && 0 < c.stacks
    ensures Faithful(Looked(c, theme, 0, direct, diagnostics).0, direct)
    ensures Run(c, [Lookup(theme, 0)] + rest, direct, diagnostics).resolved ==
            (if Looked(c, theme, 0, direct, diagnostics).2 then [(theme, 0)] else [])
            + Run(Looked(c, theme, 0, direct, diagnostics).0, rest, direct, diagnostics).resolved
  {
    hide Faithful, Looked;
    LookupAgrees(c, theme, 0, direct, diagnostics);
    var ops := [Lookup(theme, 0)] + rest;
    assert ops[0] == Lookup(theme, 0) && ops[1..] == rest;
  }

  // The slots' themes, whose entries for stack 0 are filled, and the next victim.
  predicate Shape<Style>(c: Cache<Style>, t0: nat, filled0: bool, t1: nat, filled1: bool, next: nat) {
    && Valid(c) && c.stacks == 1 && c.next == next
    && c.slots[0].theme == t0 && c.slots[0].styles[0].Some? == filled0
    && c.slots[1].theme == t1 && c.slots[1].styles[0].Some? == filled1
  }

  // A lookup of a theme that no slot has takes the next slot over and resolves.
  lemma {:induction false} Takes<Style(!new)>(c: Cache<Style>, t0: nat, f0: bool, t1: nat, f1: bool, next: nat, theme: nat, direct: (nat, nat) -> Style, diagnostics: bool)
    requires Shape(c, t0, f0, t1, f1, next) && theme != t0 && theme != t1
    ensures var (d, _, resolved) := Looked(c, theme, 0, direct, diagnostics);
            resolved && if next == 0 then Shape(d, theme, true, t1, f1, 1) else Shape(d, t0, f0, theme, true, 0)
  {
  }

  // A lookup of the first slot's theme, or of the second's only, fills that slot.
  lemma {:induction false} Fills<Style(!new)>(c: Cache<Style>, t0: nat, f0: bool, t1: nat, f1: bool, next: nat, theme: nat, direct: (nat, nat) -> Style, diagnostics: bool)
    requires Shape(c, t0, f0, t1, f1, next) && (theme == t0 || theme == t1)
    ensures var (d, _, resolved) := Looked(c, theme, 0, direct, diagnostics);
            if theme == t0 then (resolved <==> !f0) && Shape(d, t0, true, t1, f1, next)
            else (resolved <==> !f1) && Shape(d, t0, f0, t1, true, next)
  {
  }

  // Three themes other than 0: the third takes the first one's slot, and the first is
  // resolved again.
  lemma {:induction false} ThirdThemeEvicts<Style(!new)>(a: nat, b: nat, d: nat, direct: (nat, nat) -> Style, diagnostics: bool)
    requires 0 < a && 0 < b && 0 < d && a != b && b != d && a != d
    ensures Run(Fresh<Style>(), [Lookup(a, 0)] + ([Lookup(b, 0)] + ([Lookup(d, 0)] + ([Lookup(a, 0)] + []))), direct, diagnostics).resolved
            == [(a, 0)] + ([(b, 0)] + ([(d, 0)] + ([(a, 0)] + [])))
  {
    hide Looked, Shape, Faithful, Run;
    FreshShape(direct);
    var c0 := Fresh<Style>();
    Takes(c0, 0, false, 0, false, 0, a, direct, diagnostics);
    var c1 := Looked(c0, a, 0, direct, diagnostics).0;
    ShapeHasStack(c1, a, true, 0, false, 1);
    Takes(c1, a, true, 0, false, 1, b, direct, diagnostics);
    var c2 := Looked(c1, b, 0, direct, diagnostics).0;
    ShapeHasStack(c2, a, true, b, true, 0);
    Takes(c2, a, true, b, true, 0, d, direct, diagnostics);
    var c3 := Looked(c2, d, 0, direct, diagnostics).0;
    ShapeHasStack(c3, d, true, b, true, 1);
    Takes(c3, d, true, b, true, 1, a, direct, diagnostics);
    LookupAgain(c0, a, [Lookup(b, 0)] + ([Lookup(d, 0)] + ([Lookup(a, 0)] + [])), direct, diagnostics);
    LookupAgain(c1, b, [Lookup(d, 0)] + ([Lookup(a, 0)] + []), direct, diagnostics);
    LookupAgain(c2, d, [Lookup(a, 0)] + [], direct, diagnostics);
    LookupAgain(c3, a, [], direct, diagnostics);
    NothingMore(Looked(c3, a, 0, direct, diagnostics).0, direct, diagnostics);
  }

  // Theme 0 is what an unused slot is marked with: another theme takes its slot first,
  // and the second slot answers for it, empty.
  lemma {:induction false} ThemeZeroEvicts<Style(!new)>(a: nat, direct: (nat, nat) -> Style, diagnostics: bool)
    requires 0 < a
    ensures Run(Fresh<Style>(), [Lookup(0, 0)] + ([Lookup(a, 0)] + ([Lookup(0, 0)] + [])), direct, diagnostics).resolved
            == [(0, 0)] + ([(a, 0)] + ([(0, 0)] + []))
  {
    hide Looked, Shape, Faithful, Run;
    FreshShape(direct);
    var c0 := Fresh<Style>();
    Fills(c0, 0, false, 0, false, 0, 0, direct, diagnostics);
    var c1 := Looked(c0, 0, 0, direct, diagnostics).0;
    ShapeHasStack(c1, 0, true, 0, false, 0);
    Takes(c1, 0, true, 0, false, 0, a, direct, diagnostics);
    var c2 := Looked(c1, a, 0, direct, diagnostics).0;
    ShapeHasStack(c2, a, true, 0, false, 1);
    Fills(c2, a, true, 0, false, 1, 0, direct, diagnostics);
    LookupAgain(c0, 0, [Lookup(a, 0)] + ([Lookup(0, 0)] + []), direct, diagnostics);
    LookupAgain(c1, a, [Lookup(0, 0)] + [], direct, diagnostics);
    LookupAgain(c2, 0, [], direct, diagnostics);
    NothingMore(Looked(c2, 0, 0, direct, diagnostics).0, direct, diagnostics);
  }

  lemma {:induction false} FreshShape<Style(!new)>(direct: (nat, nat) -> Style)
    ensures Shape(Fresh<Style>(), 0, false, 0, false, 0) && Valid(Fresh<Style>()) && Faithful(Fresh<Style>(), direct) && Fresh<Style>().stacks == 1
  {
  }

  lemma {:induction false} ShapeHasStack<Style>(c: Cache<Style>, t0: nat, f0: bool, t1: nat, f1: bool, next: nat)
    requires Shape(c, t0, f0, t1, f1, next)
    ensures c.stacks == 1 && Valid(c)
  {
  }

  lemma {:induction false} NothingMore<Style(!new)>(c: Cache<Style>, direct: (nat, nat) -> Style, diagnostics: bool)
    requires Faithful(c, direct)
    ensures Run(c, [], direct, diagnostics).resolved == []
  {
    hide Faithful;
  }

  // Theme 0 alone stays in the first slot.
  lemma {:induction false} ZeroAlone<Style(!new)>(c: Cache<Style>, ops: seq<Op>, direct: (nat, nat) -> Style, diagnostics: bool)
    requires Valid(c) && Faithful(c, direct) && c.slots[0].theme == 0 && Within(ops, {0})
    ensures NoRepeat(Run(c, ops, direct, diagnostics).resolved)
    ensures forall p :: p in Run(c, ops, direct, diagnostics).resolved ==> p.0 == 0 && !Cached(c, 0, p.1)
    decreases |ops|
  {
    hide Faithful, NoRepeat;
    if ops == [] {
      NothingMore(c, direct, diagnostics);
      NoPairs();
    } else {
      assert Within(ops[1..], {0});
      match ops[0]
      case Push =>
        PushFaithful(c, direct);
        ZeroPush(c, direct);
        ZeroAlone(Pushed(c), ops[1..], direct, diagnostics);
        hide Pushed, Cached;
      case Lookup(theme, stack) =>
        assert theme == 0;
        LookupAgrees(c, 0, stack, direct, diagnostics);
        ZeroLookup(c, stack, direct, diagnostics);
        var d := Looked(c, 0, stack, direct, diagnostics).0;
        ZeroAlone(d, ops[1..], direct, diagnostics);
        var rest := Run(d, ops[1..], direct, diagnostics).resolved;
        if Looked(c, 0, stack, direct, diagnostics).2 && stack < c.stacks { FirstIsNew((0, stack), rest); }
        hide Looked, Cached;
        assert [] + rest == rest;
    }
  }

  lemma {:induction false} NoPairs()
    ensures NoRepeat([])
  {
  }

  lemma {:induction false} FirstIsNew(p: (nat, nat), rest: seq<(nat, nat)>)
    requires NoRepeat(rest) && p !in rest
    ensures NoRepeat([p] + rest)
  {
  }

  lemma {:induction false} ZeroPush<Style(!new)>(c: Cache<Style>, direct: (nat, nat) -> Style)
    requires Valid(c) && Faithful(c, direct) && c.slots[0].theme == 0
    ensures Valid(Pushed(c)) && Pushed(c).slots[0].theme == 0 && forall i :: Cached(c, 0, i) ==> Cached(Pushed(c), 0, i)
  {
  }

  lemma {:induction false} ZeroLookup<Style(!new)>(c: Cache<Style>, stack: nat, direct: (nat, nat) -> Style, diagnostics: bool)
    requires Valid(c) && Faithful(c, direct) && c.slots[0].theme == 0
    ensures var (d, _, resolved) := Looked(c, 0, stack, direct, diagnostics);
            && Valid(d) && d.slots[0].theme == 0
            && (resolved <==> !Cached(c, 0, stack)) && (stack < c.stacks ==> Cached(d, 0, stack))
            && forall i :: Cached(c, 0, i) ==> Cached(d, 0, i)
  {
  }

  // Every run over these themes resolves each pair at most once.
  ghost predicate NeverTwice<Style(!new)>(themes: set<nat>, direct: (nat, nat) -> Style) {
    forall ops: seq<Op>, diagnostics: bool :: Within(ops, themes) ==> Once(ops, direct, diagnostics)
  }

  ghost predicate Once<Style(!new)>(ops: seq<Op>, direct: (nat, nat) -> Style, diagnostics: bool) {
    NoRepeat(Run(Fresh<Style>(), ops, direct, diagnostics).resolved)
  }

  predicate KeepsThemes(themes: set<nat>) {
    |themes| <= 1 || (|themes| == 2 && 0 !in themes)
  }

  lemma {:induction false} FewThemes<Style(!new)>(themes: set<nat>, ops: seq<Op>, direct: (nat, nat) -> Style, diagnostics: bool)
    requires KeepsThemes(themes) && Within(ops, themes)
    ensures Once(ops, direct, diagnostics)
  {
    hide NoRepeat, Run;
    if themes == {} {
      assert UsesOnly(ops, 1, 1);
      FreshResolvesOnce(ops, 1, 1, direct, diagnostics);
    } else {
      var a :| a in themes;
      var others := themes - {a};
      assert themes == {a} + others;
      if others == {} {
        assert themes == {a};
        if a == 0 {
          ZeroAlone(Fresh<Style>(), ops, direct, diagnostics);
        } else {
          assert UsesOnly(ops, a, a);
          FreshResolvesOnce(ops, a, a, direct, diagnostics);
        }
      } else {
        var b :| b in others;
        OneLeft(others, b);
        assert UsesOnly(ops, a, b);
        FreshResolvesOnce(ops, a, b, direct, diagnostics);
      }
    }
  }

  lemma {:induction false} OneLeft(s: set<nat>, b: nat)
    requires |s| <= 1 && b in s
    ensures s == {b}
  {
    assert s - {b} == {} by { assert |s - {b}| == |s| - 1; }
  }

  // Exactly these sets of themes keep every style once it is resolved: one theme, or two
  // that are not 0.
  lemma {:induction false} ThemesThatStay<Style(!new)>(themes: set<nat>, direct: (nat, nat) -> Style)
    ensures NeverTwice(themes, direct) <==> KeepsThemes(themes)
  {
    hide Once;
    if KeepsThemes(themes) {
      forall ops: seq<Op>, diagnostics: bool | Within(ops, themes) ensures Once(ops, direct, diagnostics) {
        FewThemes(themes, ops, direct, diagnostics);
      }
    } else {
      var ops := TooManyThemes(themes, direct);
      assert Within(ops, themes) && !Once(ops, direct, false);
    }
  }

  lemma {:induction false} TooManyThemes<Style(!new)>(themes: set<nat>, direct: (nat, nat) -> Style) returns (ops: seq<Op>)
    requires !KeepsThemes(themes)
    ensures Within(ops, themes) && !Once(ops, direct, false)
  {
    hide Run;
    var a :| a in themes && a != 0 by { NonZero(themes); }
    if 0 in themes {
      ops := [Lookup(0, 0)] + ([Lookup(a, 0)] + ([Lookup(0, 0)] + []));
      ThemeZeroEvicts(a, direct, false);
      var pairs := [(0, 0)] + ([(a, 0)] + ([(0, 0)] + []));
      assert pairs[0] == pairs[2];
    } else {
      assert |themes - {a}| == |themes| - 1;
      var b :| b in themes - {a};
      assert |themes - {a} - {b}| == |themes| - 2;
      var d :| d in themes - {a} - {b};
      ops := [Lookup(a, 0)] + ([Lookup(b, 0)] + ([Lookup(d, 0)] + ([Lookup(a, 0)] + [])));
      ThirdThemeEvicts(a, b, d, direct, false);
      var pairs := [(a, 0)] + ([(b, 0)] + ([(d, 0)] + ([(a, 0)] + [])));
      assert pairs[0] == pairs[3];
    }
  }

  lemma {:induction false} NonZero(themes: set<nat>)
    requires 2 <= |themes|
    ensures exists a :: a in themes && a != 0
  {
    assert |themes - {0}| >= |themes| - 1;
    var a :| a in themes - {0};
  }

  // ---- the table itself ----

  class HighlightScopeTable<Token, Style(!new)> {
    const diagnostics: bool
    var tokens: seq<Option<Token>>
    var slots: seq<ThemeStyles<Style>>
    var nextSlot: nat
    var hits: nat
    var misses: nat

    ghost function Abs(): Cache<Style>
      reads this
    {
      Cache(|tokens|, slots, nextSlot, hits, misses)
    }

    constructor (diagnostics: bool)
      ensures Abs() == Fresh<Style>() && this.diagnostics == diagnostics
    {
      this.diagnostics := diagnostics;
      tokens := [None];
      slots := [ThemeStyles(0, [None]), ThemeStyles(0, [None])];
      nextSlot, hits, misses := 0, 0, 0;
    }

    method Push(token: Token) returns (stack: nat)
      requires Valid(Abs())
      modifies this
      ensures stack == |old(tokens)| && tokens == old(tokens) + [Some(token)]
      ensures Abs() == Pushed(old(Abs()))
    {
      stack := |tokens|;
      tokens := tokens + [Some(token)];
      for s := 0 to |slots|
        invariant |slots| == |old(slots)|
        invariant nextSlot == old(nextSlot) && hits == old(hits) && misses == old(misses) && tokens == old(tokens) + [Some(token)]
        invariant forall k :: 0 <= k < s ==> slots[k] == old(slots)[k].(styles := old(slots)[k].styles + [None])
        invariant forall k :: s <= k < |slots| ==> slots[k] == old(slots)[k]
      {
        slots := slots[s := slots[s].(styles := slots[s].styles + [None])];
      }
      assert slots == Pushed(old(Abs())).slots;
    }

    // `resolve` is the caller's closure for this theme and stack.
    method ResolveStyle(theme: nat, stack: nat, resolve: () -> Style, ghost direct: (nat, nat) -> Style) returns (style: Style)
      requires Valid(Abs()) && resolve() == direct(theme, stack)
      modifies this
      ensures tokens == old(tokens)
      ensures (Abs(), style) == (Looked(old(Abs()), theme, stack, direct, diagnostics).0, Looked(old(Abs()), theme, stack, direct, diagnostics).1)
    {
      var slot: nat := 0;
      while slot < |slots| && slots[slot].theme != theme
        invariant slot <= |slots| && forall k :: 0 <= k < slot ==> slots[k].theme != theme
      {
        slot := slot + 1;
      }
      if slot == |slots| {
        slot := nextSlot;
        nextSlot := (slot + 1) % |slots|;
        slots := slots[slot := ThemeStyles(theme, Nones(|slots[slot].styles|))];
      }
      if stack < |slots[slot].styles| && slots[slot].styles[stack].Some? {
        if diagnostics { hits := hits + 1; }
        return slots[slot].styles[stack].value;
      }
      if diagnostics { misses := misses + 1; }
      style := resolve();
      if stack < |slots[slot].styles| {
        slots := slots[slot := slots[slot].(styles := slots[slot].styles[stack := Some(style)])];
      }
    }
  }
}

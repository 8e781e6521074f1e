/** The names of the buffers holding one path (`name_holders` in
    src/buffer_names.rs): who keeps what, and the lowest free `<N>` for the rest. */
module HolderNaming {
  import opened Options
  import opened NameText

  /** The first position of `x` in `s`. */
  function IndexOf(s: seq<string>, x: string): (i: nat)
    requires x in s
    ensures i < |s| && s[i] == x && x !in s[..i]
  {
    if s[0] == x then 0
    else
      var i := 1 + IndexOf(s[1..], x);
      assert s[..i] == [s[0]] + s[1..][..i - 1];
      i
  }

  /** Which holder shows the plain name: the one holding it now, else the first;
      nobody (-1) when a reserved name holds it. */
  function Keeper(base: string, holds: seq<string>, baseFree: bool): (k: int)
    ensures -1 <= k < |holds|
    ensures k == -1 <==> !baseFree || holds == []
    ensures k >= 0 && base in holds ==> holds[k] == base && base !in holds[..k]
    ensures k >= 0 && base !in holds ==> k == 0
  {
    if !baseFree || holds == [] then -1
    else if base in holds then IndexOf(holds, base) else 0
  }

  /** Holder `i` keeps the `<N>` it holds: nobody else has it, and no holder
      before it but the keeper holds the same. */
  predicate Keeps(base: string, holds: seq<string>, keeper: int, taken: set<string>, i: nat)
    requires i < |holds|
  {
    && i != keeper
    && IsSuffixed(base, holds[i])
    && holds[i] !in taken
    && forall j :: 0 <= j < i && j != keeper ==> holds[j] != holds[i]
  }

  function Slots(base: string, holds: seq<string>, keeper: int, taken: set<string>): (s: seq<Option<string>>)
    ensures |s| == |holds|
  {
    seq(|holds|, i requires 0 <= i < |holds| =>
      if i == keeper then Some(base)
      else if Keeps(base, holds, keeper, taken, i) then Some(holds[i])
      else None)
  }

  function Kept(slots: seq<Option<string>>): (kept: set<string>)
    ensures forall i :: 0 <= i < |slots| && slots[i].Some? ==> slots[i].value in kept
  {
    set i | 0 <= i < |slots| && slots[i].Some? :: slots[i].value
  }

  /** The lowest number from `n` whose `<N>` is not in `avoid`. */
  function NextFree(base: string, n: nat, avoid: set<string>): (k: nat)
    ensures k >= n && Suffixed(base, k) !in avoid
    ensures forall j: nat :: n <= j < k ==> Suffixed(base, j) in avoid
    decreases |avoid|
  {
    if Suffixed(base, n) !in avoid then n
    else
      var k := NextFree(base, n + 1, avoid - {Suffixed(base, n)});
      assert Suffixed(base, k) != Suffixed(base, n) by {
        if Suffixed(base, k) == Suffixed(base, n) { SuffixedInjective(base, k, base, n); }
      }
      k
  }

  function Fill(base: string, slots: seq<Option<string>>, n: nat, avoid: set<string>): (names: seq<string>)
    ensures |names| == |slots|
  {
    if slots == [] then []
    else if slots[0].Some? then [slots[0].value] + Fill(base, slots[1..], n, avoid)
    else
      var k := NextFree(base, n, avoid);
      [Suffixed(base, k)] + Fill(base, slots[1..], k + 1, avoid)
  }

  /** The names of the holders of one path shown by `base`, in their order, each
      holding the name in `holds` now; `taken` are the names others hold. */
  function HolderNames(base: string, holds: seq<string>, baseFree: bool, taken: set<string>): (names: seq<string>)
    ensures |names| == |holds|
  {
    var slots := Slots(base, holds, Keeper(base, holds, baseFree), taken);
    Fill(base, slots, 2, taken + Kept(slots))
  }

  // ----- what the names satisfy -----

  /** `name` is one of the names buffers of a path shown by `base` may have. */
  ghost predicate Own(base: string, name: string) {
    name == base || IsSuffixed(base, name)
  }

  lemma NotItsOwnSuffix(base: string)
    ensures !IsSuffixed(base, base)
  {
  }

  lemma {:induction false} FillKeepsSlot(base: string, slots: seq<Option<string>>, n: nat, avoid: set<string>, i: nat)
    requires i < |slots| && slots[i].Some?
    ensures Fill(base, slots, n, avoid)[i] == slots[i].value
  {
    if i > 0 {
      var m := if slots[0].Some? then n else NextFree(base, n, avoid) + 1;
      FillKeepsSlot(base, slots[1..], m, avoid, i - 1);
    }
  }

  lemma {:induction false} FillGives(base: string, slots: seq<Option<string>>, n: nat, avoid: set<string>, i: nat)
    returns (k: nat)
    requires i < |slots| && slots[i].None?
    ensures k >= n && Fill(base, slots, n, avoid)[i] == Suffixed(base, k) && Suffixed(base, k) !in avoid
  {
    if i == 0 {
      k := NextFree(base, n, avoid);
    } else {
      var m := if slots[0].Some? then n else NextFree(base, n, avoid) + 1;
      k := FillGives(base, slots[1..], m, avoid, i - 1);
    }
  }

  lemma {:induction false} FillLowest(base: string, slots: seq<Option<string>>, n: nat, avoid: set<string>, i: nat,
                                      k: nat, j: nat)
    requires i < |slots| && slots[i].None? && n <= j < k
    requires Fill(base, slots, n, avoid)[i] == Suffixed(base, k)
    ensures Suffixed(base, j) in avoid || Suffixed(base, j) in Fill(base, slots, n, avoid)[..i]
  {
    var names := Fill(base, slots, n, avoid);
    var first := NextFree(base, n, avoid);
    if slots[0].Some? {
      FillLowest(base, slots[1..], n, avoid, i - 1, k, j);
      assert names[..i] == [names[0]] + Fill(base, slots[1..], n, avoid)[..i - 1];
    } else if i == 0 {
      SuffixedInjective(base, first, base, k);
    } else if j > first {
      FillLowest(base, slots[1..], first + 1, avoid, i - 1, k, j);
      assert names[..i] == [names[0]] + Fill(base, slots[1..], first + 1, avoid)[..i - 1];
    } else {
      assert names[..i][0] == Suffixed(base, first);
    }
  }

  /** Numbers given out only grow. */
  lemma {:induction false} FillIncreases(base: string, slots: seq<Option<string>>, n: nat, avoid: set<string>, i: nat,
                                         j: nat)
    requires i < j < |slots| && slots[i].None? && slots[j].None?
    ensures Fill(base, slots, n, avoid)[i] != Fill(base, slots, n, avoid)[j]
  {
    if i > 0 {
      if slots[0].Some? {
        FillIncreases(base, slots[1..], n, avoid, i - 1, j - 1);
      } else {
        FillIncreases(base, slots[1..], NextFree(base, n, avoid) + 1, avoid, i - 1, j - 1);
      }
    } else {
      var first := NextFree(base, n, avoid);
      var k := FillGives(base, slots[1..], first + 1, avoid, j - 1);
      if Suffixed(base, first) == Suffixed(base, k) {
        SuffixedInjective(base, first, base, k);
      }
    }
  }

  /** Each name is the path's own and, the plain one aside, held by nobody else;
      exactly the keeper shows the plain name. */
  lemma HolderNamesOwn(base: string, holds: seq<string>, baseFree: bool, taken: set<string>, i: nat)
    requires i < |holds|
    ensures var names, keeper := HolderNames(base, holds, baseFree, taken), Keeper(base, holds, baseFree);
      if i == keeper then names[i] == base
      else IsSuffixed(base, names[i]) && names[i] !in taken && names[i] != base
  {
    var keeper := Keeper(base, holds, baseFree);
    var slots := Slots(base, holds, keeper, taken);
    NotItsOwnSuffix(base);
    if slots[i].None? {
      var k := FillGives(base, slots, 2, taken + Kept(slots), i);
      SuffixedIsSuffixed(base, k);
    } else {
      FillKeepsSlot(base, slots, 2, taken + Kept(slots), i);
    }
  }

  lemma HolderNamesDistinct(base: string, holds: seq<string>, baseFree: bool, taken: set<string>, i: nat, j: nat)
    requires i < |holds| && j < |holds| && i != j
    ensures var names := HolderNames(base, holds, baseFree, taken); names[i] != names[j]
  {
    var keeper := Keeper(base, holds, baseFree);
    HolderNamesOwn(base, holds, baseFree, taken, i);
    HolderNamesOwn(base, holds, baseFree, taken, j);
    if i != keeper && j != keeper {
      if i < j {
        SlotsDiffer(base, holds, keeper, taken, i, j);
      } else {
        SlotsDiffer(base, holds, keeper, taken, j, i);
      }
    }
  }

  lemma SlotsDiffer(base: string, holds: seq<string>, keeper: int, taken: set<string>, i: nat, j: nat)
    requires i < j < |holds| && i != keeper && j != keeper
    ensures var slots := Slots(base, holds, keeper, taken);
            var names := Fill(base, slots, 2, taken + Kept(slots));
            names[i] != names[j]
  {
    var slots := Slots(base, holds, keeper, taken);
    var avoid := taken + Kept(slots);
    if slots[i].None? && slots[j].None? {
      FillIncreases(base, slots, 2, avoid, i, j);
    } else if slots[i].None? {
      var _ := FillGives(base, slots, 2, avoid, i);
      FillKeepsSlot(base, slots, 2, avoid, j);
    } else if slots[j].None? {
      var _ := FillGives(base, slots, 2, avoid, j);
      FillKeepsSlot(base, slots, 2, avoid, i);
    } else {
      FillKeepsSlot(base, slots, 2, avoid, i);
      FillKeepsSlot(base, slots, 2, avoid, j);
    }
  }

  /** A holder that keeps nothing takes the lowest `<N>`: every lower one is
      taken by another or by a holder of the path. */
  lemma HolderNamesLowest(base: string, holds: seq<string>, baseFree: bool, taken: set<string>, i: nat, k: nat, j: nat)
    requires i < |holds| && i != Keeper(base, holds, baseFree)
    requires !Keeps(base, holds, Keeper(base, holds, baseFree), taken, i)
    requires HolderNames(base, holds, baseFree, taken)[i] == Suffixed(base, k) && 2 <= j < k
    ensures Suffixed(base, j) in taken || Suffixed(base, j) in HolderNames(base, holds, baseFree, taken)
  {
    var slots := Slots(base, holds, Keeper(base, holds, baseFree), taken);
    var avoid := taken + Kept(slots);
    FillLowest(base, slots, 2, avoid, i, k, j);
    if m :| 0 <= m < |slots| && slots[m].Some? && slots[m].value == Suffixed(base, j) {
      FillKeepsSlot(base, slots, 2, avoid, m);
    }
  }

  // ----- what the names read -----

  /** Two sets of other buffers' names that agree on this path's `<N>`. */
  ghost predicate Agree(base: string, taken: set<string>, taken': set<string>) {
    forall n :: IsSuffixed(base, n) ==> (n in taken <==> n in taken')
  }

  lemma {:induction false} NextFreeAgree(base: string, n: nat, avoid: set<string>, avoid': set<string>)
    requires n >= 2 && Agree(base, avoid, avoid')
    ensures NextFree(base, n, avoid) == NextFree(base, n, avoid')
  {
    var k, k' := NextFree(base, n, avoid), NextFree(base, n, avoid');
    SuffixedIsSuffixed(base, k);
    SuffixedIsSuffixed(base, k');
  }

  lemma {:induction false} FillAgree(base: string, slots: seq<Option<string>>, n: nat, avoid: set<string>,
                                     avoid': set<string>)
    requires n >= 2 && Agree(base, avoid, avoid')
    ensures Fill(base, slots, n, avoid) == Fill(base, slots, n, avoid')
  {
    if slots != [] {
      if slots[0].Some? {
        FillAgree(base, slots[1..], n, avoid, avoid');
      } else {
        NextFreeAgree(base, n, avoid, avoid');
        FillAgree(base, slots[1..], NextFree(base, n, avoid) + 1, avoid, avoid');
      }
    }
  }

  /** The names read `taken` only at the path's own `<N>`. */
  lemma HolderNamesAgree(base: string, holds: seq<string>, baseFree: bool, taken: set<string>, taken': set<string>)
    requires Agree(base, taken, taken')
    ensures HolderNames(base, holds, baseFree, taken) == HolderNames(base, holds, baseFree, taken')
  {
    var keeper := Keeper(base, holds, baseFree);
    var slots, slots' := Slots(base, holds, keeper, taken), Slots(base, holds, keeper, taken');
    assert slots == slots';
    FillAgree(base, slots, 2, taken + Kept(slots), taken' + Kept(slots));
  }

  /** Names a naming could have left: one plain name when it is free, else and
      beside it distinct `<N>`. */
  ghost predicate Shaped(base: string, names: seq<string>, baseFree: bool) {
    && (forall i, j :: 0 <= i < j < |names| ==> names[i] != names[j])
    && (forall i :: 0 <= i < |names| ==> Own(base, names[i]))
    && (names != [] ==> (base in names <==> baseFree))
  }

  lemma HolderNamesShaped(base: string, holds: seq<string>, baseFree: bool, taken: set<string>)
    ensures Shaped(base, HolderNames(base, holds, baseFree, taken), baseFree)
    ensures forall n :: n in HolderNames(base, holds, baseFree, taken) && n != base ==> n !in taken
  {
    var names := HolderNames(base, holds, baseFree, taken);
    forall i, j | 0 <= i < j < |names| ensures names[i] != names[j] {
      HolderNamesDistinct(base, holds, baseFree, taken, i, j);
    }
    forall i | 0 <= i < |names|
      ensures Own(base, names[i]) && (names[i] == base <==> i == Keeper(base, holds, baseFree))
      ensures names[i] != base ==> names[i] !in taken
    {
      HolderNamesOwn(base, holds, baseFree, taken, i);
    }
    var keeper := Keeper(base, holds, baseFree);
    if baseFree && names != [] {
      assert names[keeper] == base;
    }
  }

  lemma {:induction false} FillKept(base: string, slots: seq<Option<string>>, n: nat, avoid: set<string>,
                                    names: seq<string>)
    requires |names| == |slots| && forall i :: 0 <= i < |slots| ==> slots[i] == Some(names[i])
    ensures Fill(base, slots, n, avoid) == names
  {
    if slots != [] {
      FillKept(base, slots[1..], n, avoid, names[1..]);
    }
  }

  /** Naming again changes nothing: every buffer keeps a name it may keep. */
  lemma HolderNamesStable(base: string, names: seq<string>, baseFree: bool, taken: set<string>)
    requires Shaped(base, names, baseFree)
    requires forall n :: n in names && n != base ==> n !in taken
    ensures HolderNames(base, names, baseFree, taken) == names
  {
    var keeper := Keeper(base, names, baseFree);
    var slots := Slots(base, names, keeper, taken);
    forall i | 0 <= i < |names| ensures slots[i] == Some(names[i]) {
      if i != keeper {
        assert names[i] != base;
        assert Keeps(base, names, keeper, taken, i);
      }
    }
    FillKept(base, slots, 2, taken + Kept(slots), names);
  }

  // ----- the rule the names follow, and no other names do -----

  /** Holder `i` shows the plain name: nothing reserved holds it, and `i` is the
      first to hold it or, when nobody does, the first holder. */
  ghost predicate ShowsPlain(base: string, holds: seq<string>, baseFree: bool, i: nat)
    requires i < |holds|
  {
    baseFree && if base in holds then holds[i] == base && base !in holds[..i] else i == 0
  }

  /** Holder `i` stays as it is: it holds a `<N>` that nobody else has, and no
      holder before it has a claim on the same. */
  ghost predicate Stays(base: string, holds: seq<string>, baseFree: bool, taken: set<string>, i: nat)
    requires i < |holds|
  {
    && !ShowsPlain(base, holds, baseFree, i)
    && IsSuffixed(base, holds[i])
    && holds[i] !in taken
    && forall j :: 0 <= j < i && holds[j] == holds[i] ==> ShowsPlain(base, holds, baseFree, j)
  }

  /** The `<j>` is no choice for holder `i`: others hold it, a holder that stays
      has it, or a holder before `i` was given it. */
  ghost predicate Refused(base: string, holds: seq<string>, baseFree: bool, taken: set<string>, names: seq<string>,
                          i: nat, j: nat)
    requires i < |holds| == |names|
  {
    || Suffixed(base, j) in taken
    || Suffixed(base, j) in names[..i]
    || exists m :: 0 <= m < |holds| && Stays(base, holds, baseFree, taken, m) && holds[m] == Suffixed(base, j)
  }

  ghost predicate LowestFor(base: string, holds: seq<string>, baseFree: bool, taken: set<string>, names: seq<string>,
                            i: nat, k: nat)
    requires i < |holds| == |names|
  {
    && k >= 2 && names[i] == Suffixed(base, k)
    && forall j :: 2 <= j < k ==> Refused(base, holds, baseFree, taken, names, i, j)
  }

  /** Holder `i` is named by the rule: the plain name, the `<N>` it stays with,
      or else the lowest `<N>` nobody refuses it. */
  ghost predicate RuledAt(base: string, holds: seq<string>, baseFree: bool, taken: set<string>, names: seq<string>,
                          i: nat)
    requires i < |holds| == |names|
  {
    if ShowsPlain(base, holds, baseFree, i) then names[i] == base
    else if Stays(base, holds, baseFree, taken, i) then names[i] == holds[i]
    else names[i] !in taken && exists k: nat :: LowestFor(base, holds, baseFree, taken, names, i, k)
  }

  ghost predicate Ruled(base: string, holds: seq<string>, baseFree: bool, taken: set<string>, names: seq<string>) {
    && |names| == |holds|
    && (forall i, j :: 0 <= i < j < |names| ==> names[i] != names[j])
    && (forall i :: 0 <= i < |names| ==> RuledAt(base, holds, baseFree, taken, names, i))
  }

  lemma StaysIsKeeps(base: string, holds: seq<string>, baseFree: bool, taken: set<string>, i: nat)
    requires i < |holds|
    ensures ShowsPlain(base, holds, baseFree, i) <==> i == Keeper(base, holds, baseFree)
    ensures Stays(base, holds, baseFree, taken, i) <==> Keeps(base, holds, Keeper(base, holds, baseFree), taken, i)
  {
    forall j: nat | j <= i
      ensures ShowsPlain(base, holds, baseFree, j) <==> j == Keeper(base, holds, baseFree)
    {
      var keeper := Keeper(base, holds, baseFree);
      if keeper >= 0 && base in holds && holds[j] == base && j != keeper {
        assert holds[..j][keeper] == base;
      }
    }
  }

  lemma HolderNamesRuledAt(base: string, holds: seq<string>, baseFree: bool, taken: set<string>, i: nat)
    requires i < |holds|
    ensures RuledAt(base, holds, baseFree, taken, HolderNames(base, holds, baseFree, taken), i)
  {
    var keeper, names := Keeper(base, holds, baseFree), HolderNames(base, holds, baseFree, taken);
    var slots := Slots(base, holds, keeper, taken);
    StaysIsKeeps(base, holds, baseFree, taken, i);
    if slots[i].Some? {
      FillKeepsSlot(base, slots, 2, taken + Kept(slots), i);
    } else {
      var k := FillGives(base, slots, 2, taken + Kept(slots), i);
      forall j | 2 <= j < k ensures Refused(base, holds, baseFree, taken, names, i, j) {
        FillLowest(base, slots, 2, taken + Kept(slots), i, k, j);
        if Suffixed(base, j) in Kept(slots) {
          KeptStays(base, holds, baseFree, taken, j);
        }
      }
      assert LowestFor(base, holds, baseFree, taken, names, i, k);
    }
  }

  lemma KeptStays(base: string, holds: seq<string>, baseFree: bool, taken: set<string>, j: nat)
    requires j >= 2 && Suffixed(base, j) in Kept(Slots(base, holds, Keeper(base, holds, baseFree), taken))
    ensures exists m :: 0 <= m < |holds| && Stays(base, holds, baseFree, taken, m) && holds[m] == Suffixed(base, j)
  {
    var slots := Slots(base, holds, Keeper(base, holds, baseFree), taken);
    var m :| 0 <= m < |slots| && slots[m].Some? && slots[m].value == Suffixed(base, j);
    StaysIsKeeps(base, holds, baseFree, taken, m);
    SuffixedIsSuffixed(base, j);
    NotItsOwnSuffix(base);
  }

  lemma {:induction false} RuledUnique(base: string, holds: seq<string>, baseFree: bool, taken: set<string>,
                                       names: seq<string>, names': seq<string>, n: nat)
    requires Ruled(base, holds, baseFree, taken, names) && Ruled(base, holds, baseFree, taken, names')
    requires n <= |holds|
    ensures names[..n] == names'[..n]
  {
    if n > 0 {
      var i := n - 1;
      RuledUnique(base, holds, baseFree, taken, names, names', i);
      assert RuledAt(base, holds, baseFree, taken, names, i) && RuledAt(base, holds, baseFree, taken, names', i);
      if !ShowsPlain(base, holds, baseFree, i) && !Stays(base, holds, baseFree, taken, i) {
        var k: nat :| LowestFor(base, holds, baseFree, taken, names, i, k);
        var k': nat :| LowestFor(base, holds, baseFree, taken, names', i, k');
        if k < k' {
          NotRefused(base, holds, baseFree, taken, names, names', i, k);
        } else if k' < k {
          NotRefused(base, holds, baseFree, taken, names', names, i, k');
        }
      }
      assert names[..n] == names[..i] + [names[i]] && names'[..n] == names'[..i] + [names'[i]];
    }
  }

  /** What holder `i` was given was not refused it, by whoever names the rest. */
  lemma NotRefused(base: string, holds: seq<string>, baseFree: bool, taken: set<string>, names: seq<string>,
                   names': seq<string>, i: nat, k: nat)
    requires Ruled(base, holds, baseFree, taken, names) && i < |holds| == |names'| && names[..i] == names'[..i]
    requires !ShowsPlain(base, holds, baseFree, i) && !Stays(base, holds, baseFree, taken, i)
    requires names[i] == Suffixed(base, k)
    ensures !Refused(base, holds, baseFree, taken, names', i, k)
  {
    assert RuledAt(base, holds, baseFree, taken, names, i);
    forall m | 0 <= m < |holds| && Stays(base, holds, baseFree, taken, m) ensures holds[m] != names[i] {
      assert RuledAt(base, holds, baseFree, taken, names, m);
    }
    assert forall m :: 0 <= m < i ==> names'[..i][m] == names[m];
  }

  lemma HolderNamesRuled(base: string, holds: seq<string>, baseFree: bool, taken: set<string>, names: seq<string>)
    requires names == HolderNames(base, holds, baseFree, taken)
    ensures Ruled(base, holds, baseFree, taken, names)
  {
    HolderNamesShaped(base, holds, baseFree, taken);
    forall i: nat | i < |holds| ensures RuledAt(base, holds, baseFree, taken, names, i) {
      HolderNamesRuledAt(base, holds, baseFree, taken, i);
    }
  }

  lemma RuledPlain(base: string, holds: seq<string>, baseFree: bool, taken: set<string>, names: seq<string>, i: nat)
    requires Ruled(base, holds, baseFree, taken, names) && i < |holds|
    ensures ShowsPlain(base, holds, baseFree, i) <==> names[i] == base
    ensures Stays(base, holds, baseFree, taken, i) ==> names[i] == holds[i]
  {
    assert RuledAt(base, holds, baseFree, taken, names, i);
    NotItsOwnSuffix(base);
    if k: nat :| LowestFor(base, holds, baseFree, taken, names, i, k) {
      SuffixedIsSuffixed(base, k);
    }
  }

  lemma RuledLowest(base: string, holds: seq<string>, baseFree: bool, taken: set<string>, names: seq<string>, i: nat,
                    k: nat, j: nat)
    requires Ruled(base, holds, baseFree, taken, names) && i < |holds|
    requires !ShowsPlain(base, holds, baseFree, i) && !Stays(base, holds, baseFree, taken, i)
    requires names[i] == Suffixed(base, k) && 2 <= j < k
    ensures Suffixed(base, j) !in taken ==>
      exists m: nat :: m < |holds| && names[m] == Suffixed(base, j) && (m < i || Stays(base, holds, baseFree, taken, m))
  {
    assert RuledAt(base, holds, baseFree, taken, names, i);
    var k': nat :| LowestFor(base, holds, baseFree, taken, names, i, k');
    SuffixedInjective(base, k, base, k');
    assert Refused(base, holds, baseFree, taken, names, i, j);
    if m :| 0 <= m < |holds| && Stays(base, holds, baseFree, taken, m) && holds[m] == Suffixed(base, j) {
      assert RuledAt(base, holds, baseFree, taken, names, m);
    }
  }

  /** The names are the ones the rule gives, and no others follow it. */
  lemma HolderNamesExactly(base: string, holds: seq<string>, baseFree: bool, taken: set<string>, names: seq<string>)
    ensures names == HolderNames(base, holds, baseFree, taken) <==> Ruled(base, holds, baseFree, taken, names)
  {
    var given := HolderNames(base, holds, baseFree, taken);
    HolderNamesRuled(base, holds, baseFree, taken, given);
    if Ruled(base, holds, baseFree, taken, names) {
      RuledUnique(base, holds, baseFree, taken, names, given, |holds|);
      assert names[..|holds|] == names && given[..|holds|] == given;
    }
  }

  // ----- the loops -----

  /** The first two passes: the keeper's plain name, then every `<N>` kept. */
  method KeepNames(base: string, holds: seq<string>, keeper: int, taken: set<string>)
    returns (out: seq<Option<string>>, used: set<string>)
    ensures out == Slots(base, holds, keeper, taken)
    ensures forall n :: n in used <==>
      exists j :: 0 <= j < |holds| && Keeps(base, holds, keeper, taken, j) && holds[j] == n
  {
    out := seq(|holds|, i => if i == keeper then Some(base) else None);
    used := {};
    for i := 0 to |holds|
      invariant KeptTo(base, holds, keeper, taken, i, out, used)
    {
      KeepNext(base, holds, keeper, taken, i, out, used);
      if out[i].None? && IsSuffixed(base, holds[i]) && holds[i] !in taken && holds[i] !in used {
        out := out[i := Some(holds[i])];
        used := used + {holds[i]};
      }
    }
  }

  /** The names the first `i` holders keep are used. */
  ghost predicate UsedTo(base: string, holds: seq<string>, keeper: int, taken: set<string>, i: nat, used: set<string>)
    requires i <= |holds|
  {
    forall n :: n in used <==> exists j :: 0 <= j < i && Keeps(base, holds, keeper, taken, j) && holds[j] == n
  }

  /** The first `i` holders have what they keep, and those names are used. */
  ghost predicate KeptTo(base: string, holds: seq<string>, keeper: int, taken: set<string>, i: nat,
                         out: seq<Option<string>>, used: set<string>)
  {
    && i <= |out| == |holds|
    && (forall j :: 0 <= j < i ==> out[j] == Slots(base, holds, keeper, taken)[j])
    && (forall j :: i <= j < |holds| ==> out[j] == if j == keeper then Some(base) else None)
    && UsedTo(base, holds, keeper, taken, i, used)
  }

  lemma UsedNext(base: string, holds: seq<string>, keeper: int, taken: set<string>, i: nat, used: set<string>)
    requires i < |holds| && UsedTo(base, holds, keeper, taken, i, used)
    ensures UsedTo(base, holds, keeper, taken, i + 1,
                   if Keeps(base, holds, keeper, taken, i) then used + {holds[i]} else used)
  {
  }

  lemma KeepsNext(base: string, holds: seq<string>, keeper: int, taken: set<string>, i: nat, used: set<string>)
    requires i < |holds| && UsedTo(base, holds, keeper, taken, i, used)
    ensures Keeps(base, holds, keeper, taken, i) <==>
      i != keeper && IsSuffixed(base, holds[i]) && holds[i] !in taken && holds[i] !in used
  {
    if i != keeper && IsSuffixed(base, holds[i]) && holds[i] !in taken && holds[i] !in used {
      FirstKeeps(base, holds, keeper, taken, i, used);
    }
  }

  lemma KeepNext(base: string, holds: seq<string>, keeper: int, taken: set<string>, i: nat, out: seq<Option<string>>,
                 used: set<string>)
    requires i < |holds| && KeptTo(base, holds, keeper, taken, i, out, used)
    ensures var keeps := out[i].None? && IsSuffixed(base, holds[i]) && holds[i] !in taken && holds[i] !in used;
      KeptTo(base, holds, keeper, taken, i + 1, if keeps then out[i := Some(holds[i])] else out,
             if keeps then used + {holds[i]} else used)
  {
    KeepsNext(base, holds, keeper, taken, i, used);
    UsedNext(base, holds, keeper, taken, i, used);
  }

  /** The lowest number from `from` whose `<N>` is neither taken nor used. */
  method FindFree(base: string, from: nat, taken: set<string>, used: set<string>) returns (n: nat)
    ensures n == NextFree(base, from, taken + used)
  {
    n := from;
    ghost var rest := taken + used;
    while Suffixed(base, n) in taken || Suffixed(base, n) in used
      invariant n >= from
      invariant NextFree(base, n, rest) == NextFree(base, from, taken + used)
      invariant forall m: nat :: m >= n ==> (Suffixed(base, m) in rest <==> Suffixed(base, m) in taken + used)
      decreases |rest|
    {
      forall m: nat | m > n ensures Suffixed(base, m) != Suffixed(base, n) {
        if Suffixed(base, m) == Suffixed(base, n) { SuffixedInjective(base, m, base, n); }
      }
      rest := rest - {Suffixed(base, n)};
      n := n + 1;
    }
  }

  /** Names given already, with numbers below the next to try. */
  ghost predicate Past(given: set<string>, base: string, n: nat) {
    forall s :: s in given ==> exists m: nat :: m < n && s == Suffixed(base, m)
  }

  lemma PastMore(given: set<string>, base: string, n: nat, k: nat)
    requires Past(given, base, n) && n <= k
    ensures Past(given + {Suffixed(base, k)}, base, k + 1)
  {
    forall s | s in given + {Suffixed(base, k)} ensures exists m: nat :: m < k + 1 && s == Suffixed(base, m) {
      if s in given {
        var m: nat :| m < n && s == Suffixed(base, m);
        assert m < k + 1;
      }
    }
  }

  lemma FillOne(base: string, slots: seq<Option<string>>, i: nat, n: nat, avoid: set<string>)
    requires i < |slots|
    ensures Fill(base, slots[i..], n, avoid) ==
      if slots[i].Some? then [slots[i].value] + Fill(base, slots[i + 1..], n, avoid)
      else [Suffixed(base, NextFree(base, n, avoid))] + Fill(base, slots[i + 1..], NextFree(base, n, avoid) + 1, avoid)
  {
    assert slots[i..][0] == slots[i] && slots[i..][1..] == slots[i + 1..];
  }

  lemma NextFreePast(base: string, n: nat, taken: set<string>, kept: set<string>, used: set<string>,
                     given: set<string>)
    requires used == kept + given && Past(given, base, n)
    ensures NextFree(base, n, taken + used) == NextFree(base, n, taken + kept)
  {
    var k, k' := NextFree(base, n, taken + used), NextFree(base, n, taken + kept);
    forall j: nat | j >= n ensures Suffixed(base, j) !in given {
      if Suffixed(base, j) in given {
        var m: nat :| m < n && Suffixed(base, j) == Suffixed(base, m);
        SuffixedInjective(base, j, base, m);
      }
    }
  }

  /** The last pass: each holder still unnamed takes the next free `<N>`. */
  method FillNames(base: string, slots: seq<Option<string>>, taken: set<string>, kept: set<string>)
    returns (names: seq<string>)
    ensures names == Fill(base, slots, 2, taken + kept)
  {
    names := [];
    var n, used := 2, kept;
    ghost var given: set<string> := {};
    for i := 0 to |slots|
      invariant |names| == i && used == kept + given
      invariant Fill(base, slots, 2, taken + kept) == names + Fill(base, slots[i..], n, taken + kept)
      invariant n >= 2 && Past(given, base, n)
    {
      FillOne(base, slots, i, n, taken + kept);
      var name: string;
      if slots[i].Some? {
        name := slots[i].value;
      } else {
        ghost var from := n;
        NextFreePast(base, n, taken, kept, used, given);
        n := FindFree(base, n, taken, used);
        name := Suffixed(base, n);
        PastMore(given, base, from, n);
        used, given, n := used + {name}, given + {name}, n + 1;
      }
      FillSnoc(Fill(base, slots, 2, taken + kept), names, name, Fill(base, slots[i + 1..], n, taken + kept));
      names := names + [name];
    }
  }

  lemma FillSnoc(all: seq<string>, names: seq<string>, name: string, rest: seq<string>)
    requires all == names + ([name] + rest)
    ensures all == (names + [name]) + rest
  {
  }

  /** `name_holders` as the loops compute it. */
  method NameHolders(base: string, holds: seq<string>, baseFree: bool, taken: set<string>)
    returns (names: seq<string>)
    ensures names == HolderNames(base, holds, baseFree, taken)
  {
    var keeper := Keeper(base, holds, baseFree);
    var slots, used := KeepNames(base, holds, keeper, taken);
    names := FillNames(base, slots, taken, used);
    KeptAgree(base, holds, keeper, taken, used);
    FillAgree(base, slots, 2, taken + used, taken + Kept(slots));
  }

  lemma KeptAgree(base: string, holds: seq<string>, keeper: int, taken: set<string>, used: set<string>)
    requires forall n :: n in used <==>
      exists j :: 0 <= j < |holds| && Keeps(base, holds, keeper, taken, j) && holds[j] == n
    ensures Agree(base, taken + used, taken + Kept(Slots(base, holds, keeper, taken)))
  {
    var slots := Slots(base, holds, keeper, taken);
    NotItsOwnSuffix(base);
    forall n | IsSuffixed(base, n) ensures n in used <==> n in Kept(slots) {
      if n in used {
        var j :| 0 <= j < |holds| && Keeps(base, holds, keeper, taken, j) && holds[j] == n;
        assert slots[j] == Some(n);
      }
      if n in Kept(slots) {
        var i :| 0 <= i < |slots| && slots[i].Some? && slots[i].value == n;
        assert Keeps(base, holds, keeper, taken, i);
      }
    }
  }

  lemma FirstKeeps(base: string, holds: seq<string>, keeper: int, taken: set<string>, i: nat, used: set<string>)
    requires i < |holds| && i != keeper && IsSuffixed(base, holds[i]) && holds[i] !in taken && holds[i] !in used
    requires forall n :: n in used <==>
        exists j :: 0 <= j < i && Keeps(base, holds, keeper, taken, j) && holds[j] == n
    ensures Keeps(base, holds, keeper, taken, i)
  {
    if j :| 0 <= j < i && j != keeper && holds[j] == holds[i] {
      FirstHolder(base, holds, keeper, taken, j);
    }
  }

  /** Among holders of one free `<N>`, the first keeps it. */
  lemma {:induction false} FirstHolder(base: string, holds: seq<string>, keeper: int, taken: set<string>, j: nat)
    requires j < |holds| && j != keeper && IsSuffixed(base, holds[j]) && holds[j] !in taken
    ensures exists i :: 0 <= i <= j && Keeps(base, holds, keeper, taken, i) && holds[i] == holds[j]
  {
    if i :| 0 <= i < j && i != keeper && holds[i] == holds[j] {
      FirstHolder(base, holds, keeper, taken, i);
    } else {
      assert Keeps(base, holds, keeper, taken, j);
    }
  }
}

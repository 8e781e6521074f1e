/** Naming a whole session at once (`derive_names` in src/buffer_names.rs): the
    definition the registry's incremental index must agree with. */
module SessionNames {
  import opened Sealing
  import opened NameText
  import opened BufferNames
  import opened HolderNaming

  /** The names of a path, shortest first, the last of them the whole path. */
  type Spelled = a: seq<string> | Spelling(a) ghost witness RootSpelled()

  ghost function RootSpelled(): (a: seq<string>)
    ensures Spelling(a)
  {
    NamesSpell(NamePath([], false));
    Names(NamePath([], false))
  }

  /** One buffer to name: the names of its path, and the name it holds now. */
  datatype Request = Request(names: Spelled, holds: string)

  function Paths(requests: seq<Request>): (open: set<seq<string>>)
    ensures Spellings(open)
  {
    set i | 0 <= i < |requests| :: requests[i].names
  }

  ghost function Bases(open: set<seq<string>>, reserved: set<string>): set<string> {
    set a | a in open && a != [] :: Base(open, reserved, a)
  }

  /** The requests for the path `w`, by position, in order. */
  function Members(requests: seq<Request>, w: string): (m: seq<nat>)
    ensures forall t :: 0 <= t < |m| ==> m[t] < |requests| && Last(requests[m[t]].names) == w
    ensures forall s, t :: 0 <= s < t < |m| ==> m[s] < m[t]
    ensures forall i :: 0 <= i < |requests| && Last(requests[i].names) == w ==> i in m
  {
    if requests == [] then []
    else
      var n := |requests| - 1;
      var rest := Members(requests[..n], w);
      if Last(requests[n].names) == w then rest + [n] else rest
  }

  function Pick<T>(s: seq<T>, at: seq<nat>): (r: seq<T>)
    requires forall t :: 0 <= t < |at| ==> at[t] < |s|
    ensures |r| == |at|
  {
    seq(|at|, t requires 0 <= t < |at| => s[at[t]])
  }

  function Held(requests: seq<Request>, at: seq<nat>): (r: seq<string>)
    requires forall t :: 0 <= t < |at| ==> at[t] < |requests|
    ensures |r| == |at|
  {
    seq(|at|, t requires 0 <= t < |at| => requests[at[t]].holds)
  }

  /** The names of the buffers of one path when the whole session is named. */
  ghost function PathNames(requests: seq<Request>, reserved: set<string>, i: nat): (names: seq<string>)
    requires i < |requests|
    ensures |names| == |Members(requests, Last(requests[i].names))|
  {
    var open := Paths(requests);
    var base := Base(open, reserved, requests[i].names);
    HolderNames(base, Held(requests, Members(requests, Last(requests[i].names))),
                base !in reserved, reserved + Bases(open, reserved))
  }

  /** `out` names every request as the rule does. */
  ghost predicate Derived(requests: seq<Request>, reserved: set<string>, out: seq<string>) {
    && |out| == |requests|
    && forall i :: 0 <= i < |requests| ==>
         Pick(out, Members(requests, Last(requests[i].names))) == PathNames(requests, reserved, i)
  }

  // ----- what the whole-session names satisfy -----

  lemma DerivedEntry(requests: seq<Request>, reserved: set<string>, out: seq<string>, i: nat) returns (t: nat)
    requires Derived(requests, reserved, out) && i < |requests|
    ensures var m := Members(requests, Last(requests[i].names));
            t < |m| && m[t] == i && out[i] == PathNames(requests, reserved, i)[t]
  {
    var m := Members(requests, Last(requests[i].names));
    t :| 0 <= t < |m| && m[t] == i;
    assert Pick(out, m)[t] == out[i];
  }

  lemma DerivedUnique(requests: seq<Request>, reserved: set<string>, out: seq<string>, out': seq<string>)
    requires Derived(requests, reserved, out) && Derived(requests, reserved, out')
    ensures out == out'
  {
    forall i | 0 <= i < |requests| ensures out[i] == out'[i] {
      var m := Members(requests, Last(requests[i].names));
      var t :| 0 <= t < |m| && m[t] == i;
      assert Pick(out, m)[t] == out[i] && Pick(out', m)[t] == out'[i];
    }
  }

  /** Every name is its path's own, and no reserved name. */
  lemma DerivedOwn(requests: seq<Request>, reserved: set<string>, out: seq<string>, i: nat)
    requires Derived(requests, reserved, out) && i < |requests|
    ensures Own(Base(Paths(requests), reserved, requests[i].names), out[i])
    ensures out[i] !in reserved
    ensures out[i] != Base(Paths(requests), reserved, requests[i].names) ==>
              out[i] !in Bases(Paths(requests), reserved)
  {
    var open := Paths(requests);
    var base := Base(open, reserved, requests[i].names);
    var m := Members(requests, Last(requests[i].names));
    var t := DerivedEntry(requests, reserved, out, i);
    HolderNamesOwn(base, Held(requests, m), base !in reserved, reserved + Bases(open, reserved), t);
  }

  lemma DerivedDistinctHolders(requests: seq<Request>, reserved: set<string>, out: seq<string>, i: nat, j: nat)
    requires Derived(requests, reserved, out) && i < j < |requests|
    requires Last(requests[i].names) == Last(requests[j].names)
    ensures out[i] != out[j]
  {
    LastIsUnshared(requests[i].names, requests[j].names);
    var base := Base(Paths(requests), reserved, requests[i].names);
    var held := Held(requests, Members(requests, Last(requests[i].names)));
    var s := DerivedEntry(requests, reserved, out, i);
    var t := DerivedEntry(requests, reserved, out, j);
    HolderNamesDistinct(base, held, base !in reserved, reserved + Bases(Paths(requests), reserved), s, t);
  }

  /** No two buffers of a session are given one name. */
  lemma DerivedDistinct(requests: seq<Request>, reserved: set<string>, out: seq<string>, i: nat, j: nat)
    requires Derived(requests, reserved, out) && i < j < |requests|
    ensures out[i] != out[j]
  {
    var open := Paths(requests);
    var a, b := requests[i].names, requests[j].names;
    if Last(a) == Last(b) {
      DerivedDistinctHolders(requests, reserved, out, i, j);
    } else {
      DerivedOwn(requests, reserved, out, i);
      DerivedOwn(requests, reserved, out, j);
      BasesDiffer(open, reserved, a, b);
      OwnApart(Base(open, reserved, a), Base(open, reserved, b), out[i], out[j], Bases(open, reserved));
    }
  }

  /** Names of paths with different plain names differ, once neither takes the
      other's plain name for a `<N>`. */
  lemma OwnApart(b: string, b': string, n: string, n': string, bases: set<string>)
    requires b != b' && Own(b, n) && Own(b', n') && b in bases && b' in bases
    requires n != b ==> n !in bases
    requires n' != b' ==> n' !in bases
    ensures n != n'
  {
    if n != b && n' != b' && n == n' {
      var k := SuffixedNumber(b, n);
      var k' := SuffixedNumber(b', n');
      SuffixedInjective(b, k, b', k');
    }
  }

  // ----- who keeps what in a session -----

  /** Two requests for buffers of one path. */
  ghost predicate OnePath(requests: seq<Request>, i: nat, j: nat)
    requires i < |requests| && j < |requests|
  {
    Last(requests[i].names) == Last(requests[j].names)
  }

  /** Buffer `i` shows its path's plain name `base`: it is the first of the
      path's buffers to hold it or, when none does, the first of them. */
  ghost predicate PlainHere(requests: seq<Request>, reserved: set<string>, base: string, i: nat)
    requires i < |requests|
  {
    && base !in reserved
    && if exists j :: 0 <= j < |requests| && OnePath(requests, i, j) && requests[j].holds == base
       then requests[i].holds == base &&
         forall j :: 0 <= j < i && OnePath(requests, i, j) ==> requests[j].holds != base
       else forall j :: 0 <= j < i ==> !OnePath(requests, i, j)
  }

  /** Buffer `i` holds a `<N>` of its path that no reserved or plain name is and
      no buffer of the path before it has a claim on. */
  ghost predicate StaysHere(requests: seq<Request>, reserved: set<string>, base: string, i: nat)
    requires i < |requests|
  {
    && !PlainHere(requests, reserved, base, i)
    && IsSuffixed(base, requests[i].holds)
    && requests[i].holds !in reserved + Bases(Paths(requests), reserved)
    && forall j :: 0 <= j < i && OnePath(requests, i, j) && requests[j].holds == requests[i].holds ==>
         PlainHere(requests, reserved, base, j)
  }

  /** `m` are the requests of one path in their order, holding the names `held`. */
  ghost predicate HeldBy(requests: seq<Request>, m: seq<nat>, held: seq<string>, w: string) {
    && |held| == |m|
    && (forall s :: 0 <= s < |m| ==>
          m[s] < |requests| && Last(requests[m[s]].names) == w && held[s] == requests[m[s]].holds)
    && (forall s, t :: 0 <= s < t < |m| ==> m[s] < m[t])
    && forall j :: 0 <= j < |requests| && Last(requests[j].names) == w ==> j in m
  }

  /** The path's buffers that come before one of them are its holders before it. */
  lemma BeforeHere(requests: seq<Request>, m: seq<nat>, held: seq<string>, w: string, name: string, t: nat)
    requires HeldBy(requests, m, held, w) && t < |m|
    ensures name in held[..t] <==>
      exists j :: 0 <= j < m[t] && OnePath(requests, m[t], j) && requests[j].holds == name
    ensures t == 0 <==> forall j :: 0 <= j < m[t] ==> !OnePath(requests, m[t], j)
  {
    if name in held[..t] {
      var s :| 0 <= s < t && held[s] == name;
      assert OnePath(requests, m[t], m[s]);
    }
    if t > 0 {
      assert OnePath(requests, m[t], m[0]);
    }
    forall j: nat | j < m[t] && OnePath(requests, m[t], j) ensures t > 0 && requests[j].holds in held[..t] {
      var s :| 0 <= s < |m| && m[s] == j;
      assert s < t && held[..t][s] == requests[j].holds;
    }
  }

  lemma AnywhereHere(requests: seq<Request>, m: seq<nat>, held: seq<string>, w: string, name: string, t: nat)
    requires HeldBy(requests, m, held, w) && t < |m|
    ensures name in held <==>
      exists j :: 0 <= j < |requests| && OnePath(requests, m[t], j) && requests[j].holds == name
  {
    if s :| 0 <= s < |held| && held[s] == name {
      assert OnePath(requests, m[t], m[s]);
    }
    if j :| 0 <= j < |requests| && OnePath(requests, m[t], j) && requests[j].holds == name {
      var s :| 0 <= s < |m| && m[s] == j;
      assert held[s] == name;
    }
  }

  lemma PlainThere(requests: seq<Request>, reserved: set<string>, base: string, free: bool, m: seq<nat>,
                   held: seq<string>, w: string, t: nat)
    requires HeldBy(requests, m, held, w) && t < |m| && free == (base !in reserved)
    ensures PlainHere(requests, reserved, base, m[t]) <==> ShowsPlain(base, held, free, t)
  {
    BeforeHere(requests, m, held, w, base, t);
    AnywhereHere(requests, m, held, w, base, t);
  }

  /** A claim on one `<N>` before a buffer is a claim by a holder before it. */
  lemma ClaimsThere(requests: seq<Request>, reserved: set<string>, base: string, free: bool, m: seq<nat>,
                    held: seq<string>, w: string, t: nat)
    requires HeldBy(requests, m, held, w) && t < |m| && free == (base !in reserved)
    ensures (forall j :: 0 <= j < m[t] && OnePath(requests, m[t], j) && requests[j].holds == held[t] ==>
               PlainHere(requests, reserved, base, j)) <==>
      forall s :: 0 <= s < t && held[s] == held[t] ==> ShowsPlain(base, held, free, s)
  {
    forall s: nat | s < t
      ensures OnePath(requests, m[t], m[s])
      ensures PlainHere(requests, reserved, base, m[s]) <==> ShowsPlain(base, held, free, s)
    {
      PlainThere(requests, reserved, base, free, m, held, w, s);
    }
    forall j: nat | j < m[t] && OnePath(requests, m[t], j) ensures exists s: nat :: s < t && m[s] == j {
      var s :| 0 <= s < |m| && m[s] == j;
      assert s < t;
    }
  }

  lemma StaysThere(requests: seq<Request>, reserved: set<string>, base: string, free: bool, taken: set<string>,
                   m: seq<nat>, held: seq<string>, w: string, t: nat)
    requires HeldBy(requests, m, held, w) && t < |m| && free == (base !in reserved)
    requires taken == reserved + Bases(Paths(requests), reserved)
    ensures StaysHere(requests, reserved, base, m[t]) <==> Stays(base, held, free, taken, t)
  {
    PlainThere(requests, reserved, base, free, m, held, w, t);
    ClaimsThere(requests, reserved, base, free, m, held, w, t);
  }

  lemma MembersHeld(requests: seq<Request>, w: string)
    ensures HeldBy(requests, Members(requests, w), Held(requests, Members(requests, w)), w)
  {
  }

  lemma PathRuled(requests: seq<Request>, reserved: set<string>, i: nat, base: string, free: bool, taken: set<string>,
                  held: seq<string>)
    requires i < |requests| && base == Base(Paths(requests), reserved, requests[i].names)
    requires free == (base !in reserved) && taken == reserved + Bases(Paths(requests), reserved)
    requires held == Held(requests, Members(requests, Last(requests[i].names)))
    ensures Ruled(base, held, free, taken, PathNames(requests, reserved, i))
  {
    HolderNamesRuled(base, held, free, taken, PathNames(requests, reserved, i));
  }

  /** A buffer among those of its path, named by the rule. */
  lemma DerivedRuled(requests: seq<Request>, reserved: set<string>, out: seq<string>, i: nat, base: string, free: bool,
                     taken: set<string>)
    returns (m: seq<nat>, held: seq<string>, names: seq<string>, t: nat)
    requires Derived(requests, reserved, out) && i < |requests|
    requires base == Base(Paths(requests), reserved, requests[i].names)
    requires free == (base !in reserved) && taken == reserved + Bases(Paths(requests), reserved)
    ensures HeldBy(requests, m, held, Last(requests[i].names)) && t < |m| && m[t] == i
    ensures |names| == |held| && forall s :: 0 <= s < |m| ==> m[s] < |out| && names[s] == out[m[s]]
    ensures Ruled(base, held, free, taken, names)
  {
    m := Members(requests, Last(requests[i].names));
    held := Held(requests, m);
    MembersHeld(requests, Last(requests[i].names));
    t :| 0 <= t < |m| && m[t] == i;
    names := Pick(out, m);
    PathRuled(requests, reserved, i, base, free, taken, held);
  }

  /** A session keeps the plain name where it is and every `<N>` that may stay. */
  lemma DerivedKept(requests: seq<Request>, reserved: set<string>, out: seq<string>, i: nat)
    requires Derived(requests, reserved, out) && i < |requests|
    ensures var base := Base(Paths(requests), reserved, requests[i].names);
      && (PlainHere(requests, reserved, base, i) <==> out[i] == base)
      && (StaysHere(requests, reserved, base, i) ==> out[i] == requests[i].holds)
  {
    var base := Base(Paths(requests), reserved, requests[i].names);
    var taken, free := reserved + Bases(Paths(requests), reserved), base !in reserved;
    var m, held, names, t := DerivedRuled(requests, reserved, out, i, base, free, taken);
    PlainThere(requests, reserved, base, free, m, held, Last(requests[i].names), t);
    StaysThere(requests, reserved, base, free, taken, m, held, Last(requests[i].names), t);
    RuledPlain(base, held, free, taken, names, t);
  }

  /** Every other buffer takes the lowest `<N>`: a lower one is reserved, a plain
      name, kept by a buffer of the path or given to one before it. */
  lemma DerivedLowest(requests: seq<Request>, reserved: set<string>, out: seq<string>, i: nat, k: nat, j: nat)
    requires Derived(requests, reserved, out) && i < |requests|
    requires var base := Base(Paths(requests), reserved, requests[i].names);
      && !PlainHere(requests, reserved, base, i) && !StaysHere(requests, reserved, base, i)
      && out[i] == Suffixed(base, k) && 2 <= j < k
    ensures var base := Base(Paths(requests), reserved, requests[i].names);
      || Suffixed(base, j) in reserved + Bases(Paths(requests), reserved)
      || exists m: nat :: m < |requests| && OnePath(requests, i, m) && out[m] == Suffixed(base, j) &&
           (m < i || StaysHere(requests, reserved, base, m))
  {
    var base := Base(Paths(requests), reserved, requests[i].names);
    var taken, free, w := reserved + Bases(Paths(requests), reserved), base !in reserved, Last(requests[i].names);
    var m, held, names, t := DerivedRuled(requests, reserved, out, i, base, free, taken);
    PlainThere(requests, reserved, base, free, m, held, w, t);
    StaysThere(requests, reserved, base, free, taken, m, held, w, t);
    RuledLowest(base, held, free, taken, names, t, k, j);
    if Suffixed(base, j) !in taken {
      var s: nat :| s < |held| && names[s] == Suffixed(base, j) && (s < t || Stays(base, held, free, taken, s));
      StaysThere(requests, reserved, base, free, taken, m, held, w, s);
      assert OnePath(requests, i, m[s]) && out[m[s]] == Suffixed(base, j);
    }
  }

  function Again(requests: seq<Request>, out: seq<string>): (r: seq<Request>)
    requires |out| == |requests|
    ensures |r| == |requests|
  {
    seq(|requests|, i requires 0 <= i < |requests| => Request(requests[i].names, out[i]))
  }

  lemma {:induction false} MembersAgain(requests: seq<Request>, out: seq<string>, w: string)
    requires |out| == |requests|
    ensures Members(Again(requests, out), w) == Members(requests, w)
  {
    if requests != [] {
      var n := |requests| - 1;
      assert Again(requests, out)[..n] == Again(requests[..n], out[..n]);
      MembersAgain(requests[..n], out[..n], w);
    }
  }

  lemma HeldAgain(requests: seq<Request>, out: seq<string>, m: seq<nat>)
    requires |out| == |requests| && forall t :: 0 <= t < |m| ==> m[t] < |requests|
    ensures Held(Again(requests, out), m) == Pick(out, m)
  {
  }

  lemma PathNamesAgain(requests: seq<Request>, reserved: set<string>, out: seq<string>, i: nat)
    requires |out| == |requests| && i < |requests| && Paths(Again(requests, out)) == Paths(requests)
    requires Pick(out, Members(requests, Last(requests[i].names))) == PathNames(requests, reserved, i)
    ensures PathNames(Again(requests, out), reserved, i) == Pick(out, Members(requests, Last(requests[i].names)))
  {
    var again, m := Again(requests, out), Members(requests, Last(requests[i].names));
    assert Members(again, Last(again[i].names)) == m by { MembersAgain(requests, out, Last(requests[i].names)); }
    assert Held(again, m) == Pick(out, m) by { HeldAgain(requests, out, m); }
    GivenAgain(Base(Paths(requests), reserved, requests[i].names), Held(requests, m), Pick(out, m), reserved,
               reserved + Bases(Paths(requests), reserved));
  }

  /** Names given by the rule are kept by it. */
  lemma GivenAgain(base: string, holds: seq<string>, names: seq<string>, reserved: set<string>, taken: set<string>)
    requires names == HolderNames(base, holds, base !in reserved, taken)
    ensures HolderNames(base, names, base !in reserved, taken) == names
  {
    HolderNamesShaped(base, holds, base !in reserved, taken);
    HolderNamesStable(base, names, base !in reserved, taken);
  }

  /** Naming a session that is named changes nothing. */
  lemma DerivedAgain(requests: seq<Request>, reserved: set<string>, out: seq<string>)
    requires Derived(requests, reserved, out)
    ensures Derived(Again(requests, out), reserved, out)
  {
    var again := Again(requests, out);
    assert forall i :: 0 <= i < |requests| ==> again[i].names == requests[i].names;
    assert Paths(again) == Paths(requests);
    forall i | 0 <= i < |again|
      ensures Pick(out, Members(again, Last(again[i].names))) == PathNames(again, reserved, i)
    {
      MembersAgain(requests, out, Last(requests[i].names));
      PathNamesAgain(requests, reserved, out, i);
    }
  }

  // ----- the loops -----

  /** How many of `keys` have the name `n`. */
  ghost function CountWith(keys: seq<Spelled>, n: string): nat {
    if keys == [] then 0
    else CountWith(keys[..|keys| - 1], n) + if n in keys[|keys| - 1] then 1 else 0
  }

  lemma {:induction false} CountWithZero(keys: seq<Spelled>, n: string)
    ensures CountWith(keys, n) == 0 <==> forall k :: 0 <= k < |keys| ==> n !in keys[k]
  {
    if keys != [] {
      var m := |keys| - 1;
      CountWithZero(keys[..m], n);
      assert forall k :: 0 <= k < m ==> keys[..m][k] == keys[k];
    }
  }

  lemma {:induction false} CountWithMany(keys: seq<Spelled>, n: string)
    ensures CountWith(keys, n) > 1 <==>
      exists j, k :: 0 <= j < k < |keys| && n in keys[j] && n in keys[k]
  {
    if keys != [] {
      var m := |keys| - 1;
      CountWithMany(keys[..m], n);
      CountWithZero(keys[..m], n);
      assert forall k :: 0 <= k < m ==> keys[..m][k] == keys[k];
      if j, k :| 0 <= j < k < |keys| && n in keys[j] && n in keys[k] {
        assert n in keys[..m][j];
        assert k < m ==> n in keys[..m][k];
      }
    }
  }

  /** One key per distinct path, and the requests for each. */
  ghost predicate Indexed(requests: seq<Request>, keys: seq<Spelled>, index: map<string, nat>, holders: seq<seq<nat>>) {
    && |holders| == |keys|
    && (forall w :: w in index ==> index[w] < |keys| && Last(keys[index[w]]) == w)
    && (forall k :: 0 <= k < |keys| ==> Last(keys[k]) in index && index[Last(keys[k])] == k)
    && (forall k :: 0 <= k < |keys| ==> holders[k] == Members(requests, Last(keys[k])))
    && (forall i :: 0 <= i < |requests| ==> Last(requests[i].names) in index)
  }

  lemma {:induction false} NoMembers(requests: seq<Request>, w: string)
    requires forall i :: 0 <= i < |requests| ==> Last(requests[i].names) != w
    ensures Members(requests, w) == []
  {
    if requests != [] {
      NoMembers(requests[..|requests| - 1], w);
    }
  }

  lemma IndexedNext(requests: seq<Request>, i: nat, keys: seq<Spelled>, index: map<string, nat>, holders: seq<seq<nat>>,
                    k: nat)
    requires i < |requests| && Indexed(requests[..i], keys, index, holders)
    requires k < |keys| && index == index[Last(requests[i].names) := k] && Last(keys[k]) == Last(requests[i].names)
    ensures Indexed(requests[..i + 1], keys, index, holders[k := holders[k] + [i]])
  {
    var before, after := requests[..i], requests[..i + 1];
    assert after[..i] == before;
    assert after[i] == requests[i];
    forall j | 0 <= j < |after| ensures Last(after[j].names) in index {
      assert j < i ==> after[j] == before[j];
    }
  }

  lemma IndexedNewKey(requests: seq<Request>, names: Spelled, keys: seq<Spelled>, index: map<string, nat>,
                      holders: seq<seq<nat>>)
    requires Indexed(requests, keys, index, holders) && Last(names) !in index
    ensures Indexed(requests, keys + [names], index[Last(names) := |keys|], holders + [[]])
  {
    NoMembers(requests, Last(names));
  }

  method IndexPaths(requests: seq<Request>)
    returns (keys: seq<Spelled>, index: map<string, nat>, holders: seq<seq<nat>>)
    ensures Indexed(requests, keys, index, holders)
    ensures forall k :: 0 <= k < |keys| ==> holders[k] != []
  {
    keys, index, holders := [], map[], [];
    for i := 0 to |requests|
      invariant Indexed(requests[..i], keys, index, holders)
      invariant FilledBut(holders, |holders|)
    {
      var w := Last(requests[i].names);
      if w !in index {
        IndexedNewKey(requests[..i], requests[i].names, keys, index, holders);
        index := index[w := |keys|];
        keys, holders := keys + [requests[i].names], holders + [[]];
      }
      var k := index[w];
      IndexedNext(requests, i, keys, index, holders, k);
      FilledNext(holders, k, i);
      holders := holders[k := holders[k] + [i]];
    }
    assert requests[..|requests|] == requests;
  }

  /** Every path but one has a holder. */
  ghost predicate FilledBut(holders: seq<seq<nat>>, k: nat) {
    forall j :: 0 <= j < |holders| && j != k ==> holders[j] != []
  }

  lemma FilledNext(holders: seq<seq<nat>>, k: nat, i: nat)
    requires k < |holders| && FilledBut(holders, k)
    ensures FilledBut(holders[k := holders[k] + [i]], |holders|)
  {
  }

  /** How many paths have each name. */
  method CountNames(keys: seq<Spelled>) returns (shared: map<string, nat>)
    ensures forall n :: n in shared ==> shared[n] == CountWith(keys, n)
    ensures forall n :: n !in shared ==> CountWith(keys, n) == 0
  {
    shared := map[];
    for k := 0 to |keys|
      invariant forall n :: n in shared ==> shared[n] == CountWith(keys[..k], n)
      invariant forall n :: n !in shared ==> CountWith(keys[..k], n) == 0
    {
      var names := keys[k];
      for j := 0 to |names|
        invariant forall n :: n in shared ==>
          shared[n] == CountWith(keys[..k], n) + if n in names[..j] then 1 else 0
        invariant forall n :: n !in shared ==> CountWith(keys[..k], n) == 0 && n !in names[..j]
      {
        var n := names[j];
        assert n !in names[..j] by {
          if i :| 0 <= i < j && names[i] == n { SpellingDistinct(keys[k], i, j); }
        }
        shared := shared[n := (if n in shared then shared[n] else 0) + 1];
        assert names[..j + 1] == names[..j] + [n];
      }
      assert names[..|names|] == names;
      assert keys[..k + 1][..k] == keys[..k];
    }
    assert keys[..|keys|] == keys;
  }

  lemma KeyIsPath(requests: seq<Request>, keys: seq<Spelled>, index: map<string, nat>, holders: seq<seq<nat>>, k: nat)
    requires Indexed(requests, keys, index, holders) && k < |keys| && holders[k] != []
    ensures keys[k] in Paths(requests)
  {
    var i := holders[k][0];
    LastIsUnshared(keys[k], requests[i].names);
  }

  lemma KeyOf(requests: seq<Request>, keys: seq<Spelled>, index: map<string, nat>, holders: seq<seq<nat>>,
              a: seq<string>)
    returns (k: nat)
    requires Indexed(requests, keys, index, holders) && a in Paths(requests)
    ensures k < |keys| && keys[k] == a
  {
    var i :| 0 <= i < |requests| && requests[i].names == a;
    k := index[Last(requests[i].names)];
    LastIsUnshared(requests[i].names, keys[k]);
  }

  lemma SharedCount(requests: seq<Request>, keys: seq<Spelled>, index: map<string, nat>, holders: seq<seq<nat>>,
                    n: string)
    requires Indexed(requests, keys, index, holders)
    requires forall k :: 0 <= k < |keys| ==> holders[k] != []
    ensures SharedIn(Paths(requests), n) <==> CountWith(keys, n) > 1
  {
    CountWithMany(keys, n);
    var open := Paths(requests);
    if CountWith(keys, n) > 1 {
      var j, k :| 0 <= j < k < |keys| && n in keys[j] && n in keys[k];
      KeyIsPath(requests, keys, index, holders, j);
      KeyIsPath(requests, keys, index, holders, k);
      SharedBy(open, keys[j], keys[k], n);
    }
    if SharedIn(open, n) {
      var a, b :| a in open && b in open && a != b && n in a && n in b;
      var j := KeyOf(requests, keys, index, holders, a);
      var k := KeyOf(requests, keys, index, holders, b);
      assert if j < k then n in keys[j] && n in keys[k] else k < j && n in keys[k] && n in keys[j];
    }
  }

  /** Each path's name, read off the counts. */
  method PickBases(requests: seq<Request>, reserved: set<string>,
                   keys: seq<Spelled>, ghost index: map<string, nat>, ghost holders: seq<seq<nat>>)
    returns (bases: seq<string>)
    requires Indexed(requests, keys, index, holders)
    requires forall k :: 0 <= k < |keys| ==> holders[k] != []
    ensures |bases| == |keys|
    ensures forall k :: 0 <= k < |keys| ==> bases[k] == Base(Paths(requests), reserved, keys[k])
  {
    var shared := CountNames(keys);
    ghost var open := Paths(requests);
    CountsTell(requests, keys, index, holders, shared);
    bases := [];
    for k := 0 to |keys|
      invariant BasesTo(bases, open, reserved, keys, k)
    {
      var depth := NameDepth(keys[k], n => n in shared && shared[n] > 1, n => n in reserved);
      BasesMore(bases, open, reserved, keys, k, shared, depth);
      bases := bases + [keys[k][depth]];
    }
    assert Look(0);
  }

  /** The first `k` paths have their names. */
  ghost predicate BasesTo(bases: seq<string>, open: set<seq<string>>, reserved: set<string>, keys: seq<Spelled>, k: nat)
  {
    forall l: nat {:trigger Look(l)} :: Look(l) ==>
      |bases| == k <= |keys| && forall j :: 0 <= j < k ==> bases[j] == Base(open, reserved, keys[j])
  }

  lemma BasesMore(bases: seq<string>, open: set<seq<string>>, reserved: set<string>, keys: seq<Spelled>, k: nat,
                  shared: map<string, nat>, d: nat)
    requires k < |keys| && BasesTo(bases, open, reserved, keys, k) && SharedOf(open, shared) && d < |keys[k]|
    requires forall i :: 0 <= i < d ==> (keys[k][i] in shared && shared[keys[k][i]] > 1) || keys[k][i] in reserved
    requires d < |keys[k]| - 1 ==> !(keys[k][d] in shared && shared[keys[k][d]] > 1) && keys[k][d] !in reserved
    ensures BasesTo(bases + [keys[k][d]], open, reserved, keys, k + 1)
  {
    DepthFound(open, reserved, keys[k], shared, d);
    assert Look(0);
  }

  /** The counts tell the names that are shared. */
  ghost predicate SharedOf(open: set<seq<string>>, shared: map<string, nat>) {
    forall k: nat {:trigger Look(k)} :: Look(k) ==> forall n :: SharedIn(open, n) <==> n in shared && shared[n] > 1
  }

  lemma CountsTell(requests: seq<Request>, keys: seq<Spelled>, index: map<string, nat>, holders: seq<seq<nat>>,
                   shared: map<string, nat>)
    requires Indexed(requests, keys, index, holders) && forall k :: 0 <= k < |keys| ==> holders[k] != []
    requires forall n :: n in shared ==> shared[n] == CountWith(keys, n)
    requires forall n :: n !in shared ==> CountWith(keys, n) == 0
    ensures SharedOf(Paths(requests), shared)
  {
    forall n ensures SharedIn(Paths(requests), n) <==> n in shared && shared[n] > 1 {
      SharedCount(requests, keys, index, holders, n);
    }
  }

  lemma DepthFound(open: set<seq<string>>, reserved: set<string>, names: Spelled, shared: map<string, nat>, d: nat)
    requires SharedOf(open, shared) && d < |names|
    requires forall k :: 0 <= k < d ==> (names[k] in shared && shared[names[k]] > 1) || names[k] in reserved
    requires d < |names| - 1 ==> !(names[d] in shared && shared[names[d]] > 1) && names[d] !in reserved
    ensures Depth(open, reserved, names) == d
  {
    assert Look(0);
    NameDepthIs(names, n => SharedIn(open, n), n => n in reserved, d);
  }

  /** Give the names of one path's holders to their requests. */
  method GiveNames(out: seq<string>, at: seq<nat>, names: seq<string>) returns (out': seq<string>)
    requires |at| == |names|
    requires forall t :: 0 <= t < |at| ==> at[t] < |out|
    requires forall s, t :: 0 <= s < t < |at| ==> at[s] < at[t]
    ensures |out'| == |out| && Pick(out', at) == names
    ensures forall i :: 0 <= i < |out| && i !in at ==> out'[i] == out[i]
  {
    out' := out;
    for t := 0 to |at|
      invariant |out'| == |out|
      invariant forall s :: 0 <= s < t ==> out'[at[s]] == names[s]
      invariant forall i :: 0 <= i < |out| && i !in at ==> out'[i] == out[i]
    {
      out' := out'[at[t] := names[t]];
    }
  }

  /** The requests of each path: in order, and of no other path. */
  ghost predicate Parted(holders: seq<seq<nat>>, n: nat) {
    && (forall k, t :: 0 <= k < |holders| && 0 <= t < |holders[k]| ==> holders[k][t] < n)
    && (forall k, s, t :: 0 <= k < |holders| && 0 <= s < t < |holders[k]| ==> holders[k][s] < holders[k][t])
    && (forall j, k, t :: 0 <= j < |holders| && 0 <= k < |holders| && j != k && 0 <= t < |holders[j]| ==>
          holders[j][t] !in holders[k])
  }

  /** Name the holders of every path, given each path's name. */
  method NameKeys(requests: seq<Request>, reserved: set<string>, holders: seq<seq<nat>>, bases: seq<string>,
                  taken: set<string>, ghost want: seq<seq<string>>)
    returns (out: seq<string>)
    requires Parted(holders, |requests|) && |bases| == |holders| == |want|
    requires forall k :: 0 <= k < |holders| ==>
      want[k] == HolderNames(bases[k], Held(requests, holders[k]), bases[k] !in reserved, taken)
    ensures |out| == |requests|
    ensures forall k :: 0 <= k < |holders| ==> Pick(out, holders[k]) == want[k]
  {
    out := seq(|requests|, i => "");
    for k := 0 to |holders|
      invariant |out| == |requests|
      invariant forall j :: 0 <= j < k ==> Pick(out, holders[j]) == want[j]
    {
      var names := NameHolders(bases[k], Held(requests, holders[k]), bases[k] !in reserved, taken);
      assert names == want[k];
      ghost var start := out;
      out := GiveNames(out, holders[k], names);
      forall j | 0 <= j < k ensures Pick(out, holders[j]) == Pick(start, holders[j]) {
        OthersKept(holders, j, k, start, out);
      }
    }
  }

  lemma OthersKept(holders: seq<seq<nat>>, j: nat, k: nat, out: seq<string>, out': seq<string>)
    requires |out| == |out'| && Parted(holders, |out|) && j < |holders| && k < |holders| && j != k
    requires forall i :: 0 <= i < |out| && i !in holders[k] ==> out'[i] == out[i]
    ensures Pick(out', holders[j]) == Pick(out, holders[j])
  {
  }

  /** `derive_names`: index the paths, count their names, pick each path's name,
      and name its holders. */
  method DeriveNames(requests: seq<Request>, reserved: set<string>) returns (out: seq<string>)
    ensures Derived(requests, reserved, out)
  {
    var keys, index, holders := IndexPaths(requests);
    var bases := PickBases(requests, reserved, keys, index, holders);
    var allBases := set k | 0 <= k < |bases| :: bases[k];
    AllBases(requests, keys, index, holders, reserved, bases);
    MembersParted(requests, keys, index, holders);
    ghost var want := seq(|keys|, k requires 0 <= k < |keys| => KeyNames(requests, reserved, keys[k]));
    out := NameKeys(requests, reserved, holders, bases, reserved + allBases, want);
    NamedByKey(requests, reserved, keys, index, holders, out);
  }

  lemma MembersParted(requests: seq<Request>, keys: seq<Spelled>, index: map<string, nat>, holders: seq<seq<nat>>)
    requires Indexed(requests, keys, index, holders)
    ensures Parted(holders, |requests|)
  {
    forall j, k, t | 0 <= j < |holders| && 0 <= k < |holders| && j != k && 0 <= t < |holders[j]|
      ensures holders[j][t] !in holders[k]
    {
      assert Last(requests[holders[j][t]].names) == Last(keys[j]) != Last(keys[k]);
    }
  }

  lemma NamedByKey(requests: seq<Request>, reserved: set<string>, keys: seq<Spelled>, index: map<string, nat>,
                   holders: seq<seq<nat>>, out: seq<string>)
    requires Indexed(requests, keys, index, holders) && |out| == |requests|
    requires forall k :: 0 <= k < |keys| ==> Pick(out, holders[k]) == KeyNames(requests, reserved, keys[k])
    ensures Derived(requests, reserved, out)
  {
    forall i | 0 <= i < |requests|
      ensures Pick(out, Members(requests, Last(requests[i].names))) == PathNames(requests, reserved, i)
    {
      LastIsUnshared(requests[i].names, keys[index[Last(requests[i].names)]]);
    }
  }

  ghost function KeyNames(requests: seq<Request>, reserved: set<string>, key: Spelled): seq<string> {
    var open := Paths(requests);
    var base := Base(open, reserved, key);
    HolderNames(base, Held(requests, Members(requests, Last(key))), base !in reserved, reserved + Bases(open, reserved))
  }

  lemma AllBases(requests: seq<Request>, keys: seq<Spelled>, index: map<string, nat>, holders: seq<seq<nat>>,
                 reserved: set<string>, bases: seq<string>)
    requires Indexed(requests, keys, index, holders) && |bases| == |keys|
    requires forall k :: 0 <= k < |keys| ==> holders[k] != []
    requires forall k :: 0 <= k < |keys| ==> bases[k] == Base(Paths(requests), reserved, keys[k])
    ensures (set k | 0 <= k < |bases| :: bases[k]) == Bases(Paths(requests), reserved)
  {
    var open := Paths(requests);
    var all := set k | 0 <= k < |bases| :: bases[k];
    forall b | b in all ensures b in Bases(open, reserved) {
      var k :| 0 <= k < |bases| && bases[k] == b;
      KeyIsPath(requests, keys, index, holders, k);
    }
    forall b | b in Bases(open, reserved) ensures b in all {
      var a :| a in open && a != [] && Base(open, reserved, a) == b;
      var k := KeyOf(requests, keys, index, holders, a);
      assert bases[k] == b;
    }
  }
}

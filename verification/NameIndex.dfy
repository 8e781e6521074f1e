/** The registry's naming index as values (`NameIndex`, `Group` and `GroupPath`
    in src/buffer_registry.rs), what it must record, and the loops that count a
    path's names in and out and mark the paths an event can rename. */
module NameIndex {
  import opened Options
  import opened NameText
  import opened BufferNames
  import opened HolderNaming
  import opened SessionNames
  import opened XorSets

  type Id = nat

  /** A buffer holding a path: its place in the registry's order, and its id. */
  type Holder = (nat, Id)

  /** The names of a path, shortest first. */
  type Listed = a: seq<string> | a != [] witness ["/"]

  /** One path of a group and the buffers holding it. */
  datatype GroupPath = GroupPath(
    id: nat, path: Path, names: Listed, holders: seq<Holder>, depth: Option<nat>)

  /** One basename's paths, by whole name; for each of their names, how many have
      it and the xor of their ids; the path each name is the name of; and each
      path by its id. */
  datatype Group = Group(
    paths: map<string, GroupPath>, shared: map<string, (nat, nat)>,
    named: map<string, string>, byId: map<nat, string>)

  const EmptyGroup := Group(map[], map[], map[], map[])

  /** Paths to rename, each `(group, whole name)`. */
  type Dirty = set<(string, string)>

  /** Every path of every group, by whole name. */
  type Open = map<string, GroupPath>

  /** The group a path falls in: its basename. */
  function GroupAt(open: Open, w: string): string
    requires w in open
  {
    open[w].names[0]
  }

  predicate Marked(open: Open, dirty: Dirty, w: string)
    requires w in open
  {
    (GroupAt(open, w), w) in dirty
  }

  ghost function OpenSet(open: Open): set<seq<string>> {
    set w | w in open :: open[w].names
  }

  /** Each path's names are those some path spells. */
  ghost predicate Spelt(open: Open) {
    forall w :: w in open ==> Spelling(open[w].names)
  }

  /** The ids of the paths that have the name `n`. */
  ghost function With(open: Open, n: string): set<nat> {
    set w | w in open && n in open[w].names :: open[w].id
  }

  ghost predicate EntriesOk(open: Open, nextPath: nat) {
    && (forall w :: w in open ==>
          && Last(open[w].names) == w
          && open[w].id < nextPath
          && (open[w].depth.Some? ==> open[w].depth.value < |open[w].names|))
    && (forall w, v :: w in open && v in open && open[w].id == open[v].id ==> w == v)
  }

  ghost predicate SharedOk(shared: map<string, (nat, nat)>, paths: Open) {
    && (forall n :: n in shared <==> With(paths, n) != {})
    && (forall n :: n in shared ==> shared[n] == (|With(paths, n)|, XorOf(With(paths, n))))
  }

  /** The name a path is filed under. */
  function NameAt(e: GroupPath): Option<string> {
    match e.depth
    case None => None
    case Some(d) => if d < |e.names| then Some(e.names[d]) else None
  }

  ghost predicate NamedOk(named: map<string, string>, paths: Open) {
    && (forall n :: n in named ==> named[n] in paths && NameAt(paths[named[n]]) == Some(n))
    && (forall w :: w in paths && NameAt(paths[w]).Some? ==>
          NameAt(paths[w]).value in named && named[NameAt(paths[w]).value] == w)
  }

  ghost predicate ByIdOk(byId: map<nat, string>, paths: Open) {
    && (forall i :: i in byId ==> byId[i] in paths && paths[byId[i]].id == i)
    && (forall w :: w in paths ==> paths[w].id in byId && byId[paths[w].id] == w)
  }

  /** A group records the names, the filed names and the ids of its paths. */
  ghost predicate GroupOk(group: Group) {
    SharedOk(group.shared, group.paths) && NamedOk(group.named, group.paths) && ByIdOk(group.byId, group.paths)
  }

  /** `open` is every path of every group, each under its basename. */
  ghost predicate Flat(groups: map<string, Group>, open: Open) {
    && (forall g, w :: g in groups && w in groups[g].paths ==>
          w in open && open[w] == groups[g].paths[w] && GroupAt(open, w) == g)
    && (forall w :: w in open ==> GroupAt(open, w) in groups && w in groups[GroupAt(open, w)].paths)
  }

  ghost predicate GroupsOk(groups: map<string, Group>, open: Open) {
    && Flat(groups, open)
    && forall g :: g in groups ==> GroupOk(groups[g]) && groups[g].paths != map[]
  }

  // ----- holders and the names they hold -----

  function IdsOf(h: seq<Holder>): (ids: set<Id>)
    ensures forall t :: 0 <= t < |h| ==> h[t].1 in ids
  {
    set t | 0 <= t < |h| :: h[t].1
  }

  ghost predicate Sorted(h: seq<Holder>) {
    forall s, t :: 0 <= s < t < |h| ==> h[s].0 < h[t].0
  }

  /** Each buffer named by a path is among that path's holders. */
  ghost predicate MembersHold(member: map<Id, (string, string)>, place: map<Id, nat>, open: Open) {
    forall id :: id in member ==>
      && id in place && member[id].1 in open && member[id].0 == GroupAt(open, member[id].1)
      && (place[id], id) in open[member[id].1].holders
  }

  /** Each holder of a path is a buffer named by it. */
  ghost predicate HoldersAre(member: map<Id, (string, string)>, place: map<Id, nat>, open: Open) {
    forall w, h :: w in open && h in open[w].holders ==>
      h.1 in member && member[h.1] == (GroupAt(open, w), w) && h.1 in place && place[h.1] == h.0
  }

  ghost predicate HoldersSorted(open: Open) {
    forall w :: w in open ==> Sorted(open[w].holders) && open[w].holders != []
  }

  ghost predicate PlacesDiffer(place: map<Id, nat>) {
    forall a, b :: a in place && b in place && place[a] == place[b] ==> a == b
  }

  /** Each buffer named by a path is among that path's holders, in place order,
      and no other buffer is. */
  ghost predicate MembersOk(member: map<Id, (string, string)>, place: map<Id, nat>, open: Open) {
    MembersHold(member, place, open) && HoldersAre(member, place, open) && HoldersSorted(open) && PlacesDiffer(place)
  }

  function NamesAt(names: map<Id, string>, h: seq<Holder>): (r: seq<string>)
    requires forall t :: 0 <= t < |h| ==> h[t].1 in names
    ensures |r| == |h|
  {
    seq(|h|, t requires 0 <= t < |h| => names[h[t].1])
  }

  /** The names held by buffers other than the holders `h`. */
  ghost function Others(holding: map<Id, string>, h: seq<Holder>): set<string> {
    set id | id in holding && id !in IdsOf(h) :: holding[id]
  }

  ghost predicate HoldersHold(holding: map<Id, string>, open: Open) {
    forall w, t :: w in open && 0 <= t < |open[w].holders| ==> open[w].holders[t].1 in holding
  }

  ghost function BaseOf(open: Open, res: set<string>, w: string): string
    requires w in open
  {
    Base(OpenSet(open), res, open[w].names)
  }

  /** The path is filed under the name the rule gives it. */
  ghost predicate Current(open: Open, res: set<string>, w: string)
    requires w in open
  {
    open[w].depth == Some(Depth(OpenSet(open), res, open[w].names))
  }

  /** The holders are named by the rule; naming the path again would change nothing
      but for the names in `excuse`, which others may hold too. */
  ghost predicate Good(open: Open, res: set<string>, holding: map<Id, string>, excuse: set<string>, w: string)
    requires w in open && HoldersHold(holding, open)
  {
    var b, ns := BaseOf(open, res, w), NamesAt(holding, open[w].holders);
    && Shaped(b, ns, b !in res)
    && forall n :: n in ns && n != b && n in Others(holding, open[w].holders) ==> n in excuse
  }

  /** Every path an event has not marked is filed under its name and needs no
      renaming, but for the names in `excuse`. */
  ghost predicate AllGood(open: Open, res: set<string>, holding: map<Id, string>, dirty: Dirty, excuse: set<string>)
    requires HoldersHold(holding, open)
  {
    forall w :: w in open && !Marked(open, dirty, w) ==> Current(open, res, w) && Good(open, res, holding, excuse, w)
  }

  // ----- counting names -----

  ghost function Holding(holding: map<Id, string>, n: string): set<Id> {
    set id | id in holding && holding[id] == n
  }

  /** `counts` is how many buffers of `holding` hold each name. */
  ghost predicate Counts(counts: map<string, nat>, holding: map<Id, string>) {
    && (forall n :: n in counts <==> Holding(holding, n) != {})
    && (forall n :: n in counts ==> counts[n] == |Holding(holding, n)|)
  }

  function CountUp(counts: map<string, nat>, name: string): map<string, nat> {
    counts[name := if name in counts then counts[name] + 1 else 1]
  }

  function CountDown(counts: map<string, nat>, name: string): map<string, nat> {
    if name !in counts then counts
    else if counts[name] <= 1 then counts - {name}
    else counts[name := counts[name] - 1]
  }

  lemma CountsUp(counts: map<string, nat>, holding: map<Id, string>, id: Id, name: string)
    requires Counts(counts, holding) && id !in holding
    ensures Counts(CountUp(counts, name), holding[id := name])
  {
    var after := holding[id := name];
    assert Holding(after, name) == Holding(holding, name) + {id};
    forall n | n != name ensures Holding(after, n) == Holding(holding, n) {
    }
  }

  lemma CountsDown(counts: map<string, nat>, holding: map<Id, string>, id: Id)
    requires Counts(counts, holding) && id in holding
    ensures Counts(CountDown(counts, holding[id]), holding - {id})
  {
    var name, after := holding[id], holding - {id};
    assert id in Holding(holding, name);
    assert Holding(after, name) == Holding(holding, name) - {id};
    assert |Holding(after, name)| == counts[name] - 1;
    forall n | n != name ensures Holding(after, n) == Holding(holding, n) {
    }
  }

  lemma CountsKeys(counts: map<string, nat>, holding: map<Id, string>, n: string)
    requires Counts(counts, holding)
    ensures n in counts <==> exists id :: id in holding && holding[id] == n
  {
    if n in counts {
      var id :| id in Holding(holding, n);
    }
    if id :| id in holding && holding[id] == n {
      assert id in Holding(holding, n);
    }
  }

  // ----- the paths that have a name -----

  lemma SharedIsMany(open: Open, nextPath: nat, n: string)
    requires EntriesOk(open, nextPath)
    ensures SharedIn(OpenSet(open), n) <==> |With(open, n)| > 1
  {
    if SharedIn(OpenSet(open), n) {
      SharedTwo(open, nextPath, n);
    }
    if |With(open, n)| > 1 {
      TwoShared(open, nextPath, n);
    }
  }

  lemma SharedTwo(open: Open, nextPath: nat, n: string)
    requires EntriesOk(open, nextPath) && SharedIn(OpenSet(open), n)
    ensures |With(open, n)| > 1
  {
    var a, b :| a in OpenSet(open) && b in OpenSet(open) && a != b && n in a && n in b;
    var w :| w in open && open[w].names == a;
    var v :| v in open && open[v].names == b;
    TwoWith(open, w, v, n);
  }

  lemma TwoWith(open: Open, w: string, v: string, n: string)
    requires w in open && v in open && open[w].id != open[v].id && n in open[w].names && n in open[v].names
    ensures |With(open, n)| > 1
  {
    var two := {open[w].id, open[v].id};
    assert two <= With(open, n);
    CardinalityMonotone(two, With(open, n));
  }

  lemma TwoShared(open: Open, nextPath: nat, n: string)
    requires EntriesOk(open, nextPath) && |With(open, n)| > 1
    ensures SharedIn(OpenSet(open), n)
  {
    var i, j := TwoOf(With(open, n));
    var w :| w in open && n in open[w].names && open[w].id == i;
    var v :| v in open && n in open[v].names && open[v].id == j;
    SharedBy(OpenSet(open), open[w].names, open[v].names, n);
  }

  lemma {:induction false} CardinalityMonotone<T>(a: set<T>, b: set<T>)
    requires a <= b
    ensures |a| <= |b|
  {
    assert |b| == |a| + |b - a| by { assert a + (b - a) == b; }
  }

  lemma TwoOf(s: set<nat>) returns (i: nat, j: nat)
    requires |s| > 1
    ensures i in s && j in s && i != j
  {
    i :| i in s;
    var rest := s - {i};
    assert |rest| == |s| - 1;
    j :| j in rest;
  }

  /** The one path that has the name `n`, by the accumulator. */
  lemma SoleHolder(open: Open, nextPath: nat, n: string, w: string)
    requires EntriesOk(open, nextPath) && w in open && n in open[w].names && |With(open, n)| <= 1
    ensures With(open, n) == {open[w].id} && XorOf(With(open, n)) == open[w].id && |With(open, n)| == 1
  {
    var ids := With(open, n);
    assert open[w].id in ids;
    assert ids == {open[w].id} by {
      if i :| i in ids && i != open[w].id {
        CardinalityMonotone({i, open[w].id}, ids);
      }
    }
    XorOfOne(ids, open[w].id);
  }

  lemma NamesInGroup(open: Open, w: string, n: string)
    requires Spelt(open) && w in open && n in open[w].names
    ensures GroupOf(n) == GroupAt(open, w)
  {
    SpellingGroup(open[w].names, n);
  }

  /** Every path that has a name of `w` is of its group. */
  lemma WithInGroup(groups: map<string, Group>, open: Open, w: string, n: string)
    requires Flat(groups, open) && Spelt(open) && w in open && n in open[w].names
    ensures With(groups[GroupAt(open, w)].paths, n) == With(open, n)
  {
    var paths := groups[GroupAt(open, w)].paths;
    forall v | v in open && n in open[v].names ensures v in paths && paths[v] == open[v] {
      NamesInGroup(open, w, n);
      NamesInGroup(open, v, n);
    }
  }

  /** A path's name is no name of another path. */
  lemma BaseIsAlone(open: Open, nextPath: nat, res: set<string>, w: string)
    requires EntriesOk(open, nextPath) && Spelt(open) && w in open
    ensures forall v :: v in open && v != w ==> BaseOf(open, res, w) !in open[v].names
  {
    SpeltSet(open);
    forall v | v in open && v != w ensures BaseOf(open, res, w) !in open[v].names {
      BaseUnshared(OpenSet(open), res, open[w].names, open[v].names);
    }
  }

  lemma SpeltSet(open: Open)
    requires Spelt(open)
    ensures Spellings(OpenSet(open))
  {
  }

  // ----- marking -----

  /** A reserved name came or went: the paths of one group it can move. */
  function ReservedMarks(g: string, group: Group, name: string): Dirty {
    (if name in group.named then {(g, group.named[name])} else {})
    + (if name in group.shared && group.shared[name].0 == 1 && group.shared[name].1 in group.byId
       then {(g, group.byId[group.shared[name].1])} else {})
    + (match WithoutSuffix(name)
       case None => {}
       case Some(base) => if base in group.named then {(g, group.named[base])} else {})
  }

  /** The name reads as a `<N>` of the path's. */
  ghost predicate SuffixOf(e: GroupPath, name: string) {
    NameAt(e).Some? && WithoutSuffix(name) == NameAt(e)
  }

  /** The path whose `<N>` a name can be is found in the second of its groups. */
  lemma SuffixGroup(open: Open, w: string, name: string)
    requires Spelt(open) && w in open && SuffixOf(open[w], name)
    ensures WithoutSuffix(name) == NameAt(open[w])
    ensures GroupsOfName(name) == [GroupOf(name), GroupAt(open, w)]
  {
    NamesInGroup(open, w, NameAt(open[w]).value);
  }

  lemma ReservedMarksSole(groups: map<string, Group>, open: Open, nextPath: nat, w: string, name: string)
    requires GroupsOk(groups, open) && EntriesOk(open, nextPath) && Spelt(open)
    requires w in open && name in open[w].names && |With(open, name)| == 1
    ensures var g := GroupAt(open, w);
      GroupsOfName(name)[0] == g && g in groups && (g, w) in ReservedMarks(g, groups[g], name)
  {
    NamesInGroup(open, w, name);
    var group := groups[GroupAt(open, w)];
    WithInGroup(groups, open, w, name);
    SoleHolder(open, nextPath, name, w);
  }

  lemma ReservedMarksSuffix(groups: map<string, Group>, open: Open, w: string, name: string)
    requires GroupsOk(groups, open) && Spelt(open)
    requires w in open && SuffixOf(open[w], name)
    ensures var g := GroupAt(open, w);
      |GroupsOfName(name)| == 2 && GroupsOfName(name)[1] == g && g in groups
      && (g, w) in ReservedMarks(g, groups[g], name)
  {
    SuffixGroup(open, w, name);
  }

  /** The paths a reserved name that came or went can move. */
  function ReservedDirty(groups: map<string, Group>, name: string): Dirty {
    set g, d | g in GroupsOfName(name) && g in groups && d in ReservedMarks(g, groups[g], name) :: d
  }

  /** Mark the path a reserved name is the name of, the one path that has it
      among its names, and the path whose `<N>` it can be. */
  method ReservedChanged(groups: map<string, Group>, name: string, dirty: Dirty) returns (dirty': Dirty)
    ensures dirty' == dirty + ReservedDirty(groups, name)
  {
    dirty' := dirty;
    var gs := GroupsOfName(name);
    for i := 0 to |gs|
      invariant dirty' == dirty + (set g, d | g in gs[..i] && g in groups && d in ReservedMarks(g, groups[g], name) ::
                                   d)
    {
      if gs[i] in groups {
        dirty' := dirty' + ReservedMarks(gs[i], groups[gs[i]], name);
      }
      assert gs[..i + 1] == gs[..i] + [gs[i]];
    }
    assert gs[..|gs|] == gs;
  }

  lemma ReservedMarked(groups: map<string, Group>, open: Open, nextPath: nat, name: string, w: string)
    requires GroupsOk(groups, open) && EntriesOk(open, nextPath) && Spelt(open) && w in open
    requires (name in open[w].names && |With(open, name)| == 1) || SuffixOf(open[w], name)
    ensures Marked(open, ReservedDirty(groups, name), w)
  {
    if SuffixOf(open[w], name) {
      ReservedMarksSuffix(groups, open, w, name);
    } else {
      ReservedMarksSole(groups, open, nextPath, w, name);
    }
  }

  function DerivedMarks(g: string, group: Group, name: string): Dirty {
    match WithoutSuffix(name)
    case None => {}
    case Some(base) => if base in group.named then {(g, group.named[base])} else {}
  }

  /** The paths whose `<N>` a derived name that came or went can be. */
  function DerivedDirty(groups: map<string, Group>, name: string): Dirty {
    set g, d | g in GroupsOfName(name) && g in groups && d in DerivedMarks(g, groups[g], name) :: d
  }

  /** Mark the path whose `<N>` a derived name that came or went can be. */
  method DerivedChanged(groups: map<string, Group>, name: string, dirty: Dirty) returns (dirty': Dirty)
    ensures dirty' == dirty + DerivedDirty(groups, name)
  {
    dirty' := dirty;
    var base := WithoutSuffix(name);
    if base.None? {
      return;
    }
    var gs := GroupsOfName(name);
    for i := 0 to |gs|
      invariant dirty' == dirty + (set g, d | g in gs[..i] && g in groups && d in DerivedMarks(g, groups[g], name) :: d)
    {
      if gs[i] in groups {
        dirty' := dirty' + DerivedMarks(gs[i], groups[gs[i]], name);
      }
      assert gs[..i + 1] == gs[..i] + [gs[i]];
    }
    assert gs[..|gs|] == gs;
  }

  lemma DerivedMarked(groups: map<string, Group>, open: Open, name: string, w: string)
    requires GroupsOk(groups, open) && Spelt(open) && w in open && SuffixOf(open[w], name)
    ensures Marked(open, DerivedDirty(groups, name), w)
  {
    DerivedMarksSuffix(groups, open, w, name);
  }

  lemma DerivedMarksSuffix(groups: map<string, Group>, open: Open, w: string, name: string)
    requires GroupsOk(groups, open) && Spelt(open)
    requires w in open && SuffixOf(open[w], name)
    ensures var g := GroupAt(open, w);
      |GroupsOfName(name)| == 2 && GroupsOfName(name)[1] == g && g in groups
      && (g, w) in DerivedMarks(g, groups[g], name)
  {
    SuffixGroup(open, w, name);
  }

  lemma PathIsOpen(groups: map<string, Group>, open: Open, g: string, w: string)
    requires Flat(groups, open) && g in groups && w in groups[g].paths
    ensures w in open && open[w] == groups[g].paths[w] && GroupAt(open, w) == g
  {
  }

  lemma NamedIsFiled(group: Group, n: string)
    requires GroupOk(group) && n in group.named
    ensures group.named[n] in group.paths && NameAt(group.paths[group.named[n]]) == Some(n)
  {
  }

  /** Only a path whose `<N>` the name can be is marked. */
  lemma DerivedMarkedOnly(groups: map<string, Group>, open: Open, name: string, d: (string, string))
    requires GroupsOk(groups, open) && d in DerivedDirty(groups, name)
    ensures d.1 in open && d.0 == GroupAt(open, d.1)
    ensures NameAt(open[d.1]).Some? && NameAt(open[d.1]) == WithoutSuffix(name)
  {
    var g :| g in GroupsOfName(name) && g in groups && d in DerivedMarks(g, groups[g], name);
    NamedIsFiled(groups[g], WithoutSuffix(name).value);
    PathIsOpen(groups, open, g, d.1);
  }

  function Shared(count: (nat, nat), more: bool, pathId: nat): (nat, nat) {
    if more then (count.0 + 1, Xor(count.1, pathId)) else count
  }

  /** The counts once a path with these names has joined. */
  function SharedWith(shared: map<string, (nat, nat)>, names: seq<string>, pathId: nat): (r: map<string, (nat, nat)>) {
    map n | n in shared.Keys + (set n | n in names) ::
      Shared(if n in shared then shared[n] else (0, 0), n in names, pathId)
  }

  /** The paths whose name the newcomer now shares. */
  function SharedMarks(g: string, names: seq<string>, shared: map<string, (nat, nat)>,
                       named: map<string, string>): Dirty {
    set n | n in names && n in shared && shared[n].0 == 1 && n in named :: (g, named[n])
  }

  function ShareOne(shared: map<string, (nat, nat)>, name: string, pathId: nat): map<string, (nat, nat)> {
    var count := if name in shared then shared[name] else (0, 0);
    shared[name := (count.0 + 1, Xor(count.1, pathId))]
  }

  /** A name one path had to itself is shared now: if it was that path's name,
      the path takes a longer one. */
  function MarkOne(g: string, shared: map<string, (nat, nat)>, name: string, named: map<string, string>): Dirty {
    if name in shared && shared[name].0 + 1 == 2 && name in named then {(g, named[name])} else {}
  }

  /** Count a new path's names in, marking a path whose name it now shares. */
  method ShareNames(g: string, names: seq<string>, pathId: nat, shared: map<string, (nat, nat)>,
                    named: map<string, string>, dirty: Dirty)
    returns (shared': map<string, (nat, nat)>, dirty': Dirty)
    requires forall i, j :: 0 <= i < j < |names| ==> names[i] != names[j]
    ensures shared' == SharedWith(shared, names, pathId)
    ensures dirty' == dirty + SharedMarks(g, names, shared, named)
  {
    shared', dirty' := shared, dirty;
    ghost var done: seq<string> := [];
    SharedNone(shared, pathId);
    for k := 0 to |names|
      invariant done == names[..k]
      invariant shared' == SharedWith(shared, done, pathId)
      invariant dirty' == dirty + SharedMarks(g, done, shared, named)
    {
      assert names[k] !in done;
      SharedStep(g, done, names[k], pathId, shared, named);
      dirty' := dirty' + MarkOne(g, shared', names[k], named);
      shared' := ShareOne(shared', names[k], pathId);
      done := done + [names[k]];
    }
  }

  lemma SharedNone(shared: map<string, (nat, nat)>, pathId: nat)
    ensures SharedWith(shared, [], pathId) == shared
  {
    assert (set n: string | n in []) == {};
  }

  lemma SharedStep(g: string, names: seq<string>, name: string, pathId: nat, shared: map<string, (nat, nat)>,
                   named: map<string, string>)
    requires name !in names
    ensures SharedWith(shared, names + [name], pathId) == ShareOne(SharedWith(shared, names, pathId), name, pathId)
    ensures SharedMarks(g, names + [name], shared, named) ==
      SharedMarks(g, names, shared, named) + MarkOne(g, SharedWith(shared, names, pathId), name, named)
  {
    var before, after := SharedWith(shared, names, pathId), SharedWith(shared, names + [name], pathId);
    assert (set n | n in names + [name]) == (set n | n in names) + {name};
    assert after == ShareOne(before, name, pathId);
  }

  function Unshared(count: (nat, nat), less: bool, pathId: nat): (nat, nat) {
    if less && count.0 > 0 then (count.0 - 1, Xor(count.1, pathId)) else count
  }

  /** The counts once a path with these names has gone. */
  function SharedWithout(shared: map<string, (nat, nat)>, names: seq<string>, pathId: nat): map<string, (nat, nat)> {
    map n | n in shared && !(n in names && shared[n].0 == 1) :: Unshared(shared[n], n in names, pathId)
  }

  /** The paths left alone with a name they shared with the one gone. */
  function UnsharedMarks(g: string, names: seq<string>, pathId: nat, shared: map<string, (nat, nat)>,
                         byId: map<nat, string>): Dirty {
    set n | n in names && n in shared && shared[n].0 == 2 && Xor(shared[n].1, pathId) in byId ::
      (g, byId[Xor(shared[n].1, pathId)])
  }

  function UnshareOne(shared: map<string, (nat, nat)>, name: string, pathId: nat): map<string, (nat, nat)> {
    if name !in shared then shared
    else if shared[name].0 <= 1 then shared - {name}
    else shared[name := (shared[name].0 - 1, Xor(shared[name].1, pathId))]
  }

  /** A name two paths shared is the other's alone now. */
  function LeftOne(g: string, shared: map<string, (nat, nat)>, name: string, pathId: nat,
                   byId: map<nat, string>): Dirty {
    if name in shared && shared[name].0 == 2
      && Xor(shared[name].1, pathId) in byId then {(g, byId[Xor(shared[name].1, pathId)])} else {}
  }

  /** Count a departed path's names out, marking a path left alone with one. */
  method UnshareNames(g: string, names: seq<string>, pathId: nat, shared: map<string, (nat, nat)>,
                      byId: map<nat, string>, dirty: Dirty)
    returns (shared': map<string, (nat, nat)>, dirty': Dirty)
    requires forall i, j :: 0 <= i < j < |names| ==> names[i] != names[j]
    requires forall n :: n in names && n in shared ==> shared[n].0 >= 1
    ensures shared' == SharedWithout(shared, names, pathId)
    ensures dirty' == dirty + UnsharedMarks(g, names, pathId, shared, byId)
  {
    shared', dirty' := shared, dirty;
    ghost var done: seq<string> := [];
    assert SharedWithout(shared, done, pathId) == shared;
    for k := 0 to |names|
      invariant done == names[..k]
      invariant shared' == SharedWithout(shared, done, pathId)
      invariant dirty' == dirty + UnsharedMarks(g, done, pathId, shared, byId)
    {
      assert names[k] !in done;
      UnsharedStep(g, done, names[k], pathId, shared, byId);
      dirty' := dirty' + LeftOne(g, shared', names[k], pathId, byId);
      shared' := UnshareOne(shared', names[k], pathId);
      done := done + [names[k]];
    }
  }

  lemma UnsharedStep(g: string, names: seq<string>, name: string, pathId: nat, shared: map<string, (nat, nat)>,
                     byId: map<nat, string>)
    requires name !in names && (name in shared ==> shared[name].0 >= 1)
    ensures SharedWithout(shared, names + [name], pathId) == UnshareOne(SharedWithout(shared, names, pathId), name,
        pathId)
    ensures UnsharedMarks(g, names + [name], pathId, shared, byId) ==
      UnsharedMarks(g, names, pathId, shared, byId) + LeftOne(g, SharedWithout(shared, names, pathId), name, pathId,
                                                              byId)
  {
    var before, after := SharedWithout(shared, names, pathId), SharedWithout(shared, names + [name], pathId);
    assert after == UnshareOne(before, name, pathId);
    assert name in before ==> before[name] == shared[name];
  }
}

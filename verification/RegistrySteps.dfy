/** The loops of the buffer registry (src/buffer_registry.rs) that file a buffer,
    unfile it and rename the holders of a path, each tied to what it computes. */
module RegistrySteps {
  import opened Options
  import opened Sealing
  import opened NameText
  import opened BufferNames
  import opened HolderNaming
  import opened SessionNames
  import opened XorSets
  import opened NameIndex
  import opened IndexSteps
  import opened IndexMarks
  import opened IndexMembers
  import opened IndexFiling
  import opened IndexCounts
  import opened Settling
  import opened SettlePlan
  import opened SettleRun

  /** The components of a normalized path. */
  type Parts = ps: seq<string> | Components(ps) witness []

  /** What naming reads of a buffer: its name and where it came from, the
      directory a listing shows, its file, and whether an edit is running. */
  datatype Buffer = Buffer(name: string, derived: bool, directory: Option<Parts>, file: Option<Parts>, editing: bool) {

    /** The path this buffer's name derives from, if it derives from one. */
    function Origin(): Option<Path> {
      if !derived then None
      else if directory.Some? then Some(NamePath(directory.value, true))
      else if file.Some? then Some(NamePath(file.value, false))
      else None
    }
  }

  datatype RegistryError = Missing(id: Id) | ConcurrentEdit(id: Id, name: string)

  datatype Result<T> = Ok(value: T) | Err(error: RegistryError)

  // ----- join and leave, as the loops compute them -----

  lemma SpellingApart(names: seq<string>)
    requires Spelling(names)
    ensures forall i, j :: 0 <= i < j < |names| ==> names[i] != names[j]
  {
    forall i, j | 0 <= i < j < |names| ensures names[i] != names[j] {
      if names[i] == names[j] { SpellingDistinct(names, i, j); }
    }
  }

  /** File buffer `id` under a path, marking the paths that can rename: its own,
      and any whose name it now shares. */
  method Join(f: Files, id: Id, path: Path, names: Listed, dirty: Dirty) returns (f': Files, dirty': Dirty)
    requires id in f.place && Spelling(names)
    ensures f' == JoinFiles(f, id, path, names)
    ensures dirty' == dirty + JoinDirty(f, names)
  {
    var g, w := names[0], Last(names);
    var group := GroupIn(f.groups, g);
    f', dirty' := f, dirty;
    if w in group.paths {
      var e := group.paths[w];
      var e' := e.(holders := WithHolder(e.holders, (f.place[id], id)));
      f' := f'.(groups := f.groups[g := group.(paths := group.paths[w := e'])]);
    } else {
      SpellingApart(names);
      var shared;
      shared, dirty' := ShareNames(g, names, f.nextPath, group.shared, group.named, dirty);
      var e := GroupPath(f.nextPath, path, names, [(f.place[id], id)], None);
      f' := f'.(groups := f.groups[g := Group(group.paths[w := e], shared, group.named, group.byId[f.nextPath := w])],
                nextPath := f.nextPath + 1);
    }
    f' := f'.(member := f.member[id := (g, w)]);
    dirty' := dirty' + {(g, w)};
  }

  lemma LeaveCounted(f: Files, open: Open, g: string, w: string)
    requires FilesOk(f, open) && w in open && g in f.groups && w in f.groups[g].paths && f.groups[g].paths[w] == open[w]
    ensures var group := f.groups[g];
      && (forall i, j :: 0 <= i < j < |open[w].names| ==> open[w].names[i] != open[w].names[j])
      && forall n :: n in open[w].names && n in group.shared ==> group.shared[n].0 >= 1
  {
    assert forall i, j :: 0 <= i < j < |open[w].names| ==> open[w].names[i] != open[w].names[j] by {
      SpellingApart(open[w].names);
    }
    SharedAtLeast(f.groups[g].shared, f.groups[g].paths, w);
  }

  /** Unfile buffer `id` from its path, marking the paths that can rename: its
      path's other holders, or any path left alone with a name the two shared. */
  method Leave(f: Files, id: Id, dirty: Dirty, ghost open: Open) returns (f': Files, dirty': Dirty)
    requires FilesOk(f, open)
    ensures f' == LeaveFiles(f, id)
    ensures dirty' == dirty + LeaveDirty(f, id)
  {
    if id !in f.member {
      return f, dirty;
    }
    ghost var at := LeaveKey(f, open, id);
    LeaveCounted(f, open, f.member[id].0, f.member[id].1);
    f', dirty' := LeavePath(f, id, dirty);
  }

  method LeavePath(f: Files, id: Id, dirty: Dirty) returns (f': Files, dirty': Dirty)
    requires id in f.member && id in f.place && f.member[id].0 in f.groups
      && f.member[id].1 in f.groups[f.member[id].0].paths
    requires var names := f.groups[f.member[id].0].paths[f.member[id].1].names;
      && (forall i, j :: 0 <= i < j < |names| ==> names[i] != names[j])
      && forall n :: n in names && n in f.groups[f.member[id].0].shared ==> f.groups[f.member[id].0].shared[n].0 >= 1
    ensures f' == LeaveFiles(f, id)
    ensures dirty' == dirty + LeaveDirty(f, id)
  {
    var (g, w) := f.member[id];
    var group := f.groups[g];
    var e := group.paths[w];
    var h := Unheld(e.holders, f.place[id]);
    f' := f.(member := f.member - {id});
    if h != [] {
      f' := f'.(groups := f.groups[g := group.(paths := group.paths[w := e.(holders := h)])]);
      dirty' := dirty + {(g, w)};
    } else {
      var byId := group.byId - {e.id};
      var shared;
      shared, dirty' := UnshareNames(g, e.names, e.id, group.shared, byId, dirty);
      f' := f'.(groups := Regroup(f.groups, g,
                                  Group(group.paths - {w}, shared, NamedWithout(group.named, e, w), byId)));
    }
  }

  // ----- renaming the holders of a path -----

  /** Each buffer holds, or held when the event began, what the plan says. */
  ghost predicate PriorOk(before: map<Id, string>, holding: map<Id, string>, prior: map<Id, string>) {
    && before.Keys == holding.Keys
    && forall id :: id in holding ==> (if id in prior then prior[id] else holding[id]) == before[id]
  }

  ghost predicate BuffersHold(buffers: map<Id, Buffer>, holding: map<Id, string>) {
    forall id :: id in holding ==> id in buffers && buffers[id].name == holding[id]
  }

  /** The first `t` holders given their names. */
  ghost function Given(holding: map<Id, string>, h: seq<Holder>, names: seq<string>, t: nat): map<Id, string>
    requires t <= |h| == |names|
  {
    if t == 0 then holding else Given(holding, h, names, t - 1)[h[t - 1].1 := names[t - 1]]
  }

  lemma {:induction false} GivenIs(holding: map<Id, string>, h: seq<Holder>, names: seq<string>, t: nat)
    requires t <= |h| == |names| && DistinctIds(h) && forall s :: 0 <= s < |h| ==> h[s].1 in holding
    ensures Given(holding, h, names, t).Keys == holding.Keys
    ensures forall s :: 0 <= s < |h| ==> Given(holding, h, names, t)[h[s].1] == if s < t then names[s]
      else holding[h[s].1]
    ensures forall id :: id in holding && id !in IdsOf(h) ==> Given(holding, h, names, t)[id] == holding[id]
  {
    if t > 0 {
      GivenIs(holding, h, names, t - 1);
    }
  }

  lemma Recounted(held: map<string, nat>, holding: map<Id, string>, id: Id, name: string)
    requires Counts(held, holding) && id in holding
    ensures Counts(NameIndex.CountUp(CountDown(held, holding[id]), name), holding[id := name])
  {
    CountsDown(held, holding, id);
    CountsUp(CountDown(held, holding[id]), holding - {id}, id, name);
    assert (holding - {id})[id := name] == holding[id := name];
  }

  /** The names that change among the first `t` holders, old and new. */
  ghost function Changes(holding: map<Id, string>, h: seq<Holder>, names: seq<string>, t: nat): seq<(string, string)>
    requires t <= |h| == |names| && forall s :: 0 <= s < |h| ==> h[s].1 in holding
  {
    if t == 0 then []
    else
      var was := holding[h[t - 1].1];
      Changes(holding, h, names, t - 1) + if was != names[t - 1] then [(was, names[t - 1])] else []
  }

  lemma {:induction false} ChangesAre(holding: map<Id, string>, h: seq<Holder>, names: seq<string>, t: nat)
    requires t <= |h| == |names| && forall s :: 0 <= s < |h| ==> h[s].1 in holding
    ensures forall s :: 0 <= s < t && holding[h[s].1] != names[s] ==>
      (holding[h[s].1], names[s]) in Changes(holding, h, names, t)
    ensures forall p :: p in Changes(holding, h, names, t) ==>
      exists s :: 0 <= s < t && holding[h[s].1] != names[s] && p == (holding[h[s].1], names[s])
  {
    if t > 0 {
      ChangesAre(holding, h, names, t - 1);
    }
  }

  /** The counts, the buffers and the names held before agree with `holding`. */
  ghost predicate Consistent(held: map<string, nat>, buffers: map<Id, Buffer>, prior: map<Id, string>,
                             holding: map<Id, string>, before: map<Id, string>) {
    Counts(held, holding) && BuffersHold(buffers, holding) && PriorOk(before, holding, prior)
  }

  /** The same, for whoever looks. */
  ghost predicate Steady(held: map<string, nat>, buffers: map<Id, Buffer>, prior: map<Id, string>,
                         holding: map<Id, string>, before: map<Id, string>) {
    forall k: nat {:trigger Look(k)} :: Look(k) ==> Consistent(held, buffers, prior, holding, before)
  }

  lemma RenamedConsistent(held: map<string, nat>, buffers: map<Id, Buffer>, prior: map<Id, string>,
                          holding: map<Id, string>,
                          before: map<Id, string>, id: Id, name: string)
    requires Consistent(held, buffers, prior, holding, before) && id in holding
    ensures Consistent(NameIndex.CountUp(CountDown(held, holding[id]), name), buffers[id := buffers[id].(name := name)],
                       if id in prior then prior else prior[id := holding[id]], holding[id := name], before)
  {
    Recounted(held, holding, id, name);
  }

  /** Give one buffer its name. */
  method RenameOne(id: Id, name: string, held: map<string, nat>, buffers: map<Id, Buffer>, prior: map<Id, string>,
                   ghost holding: map<Id, string>, ghost before: map<Id, string>)
    returns (held': map<string, nat>, buffers': map<Id, Buffer>, prior': map<Id, string>,
             renamed: seq<(string, string)>)
    requires id in holding && Steady(held, buffers, prior, holding, before)
    ensures Steady(held', buffers', prior', holding[id := name], before)
    ensures id in buffers && buffers' == buffers[id := buffers[id].(name := name)]
    ensures renamed == if holding[id] != name then [(holding[id], name)] else []
  {
    assert Look(0);
    var current := buffers[id].name;
    held', buffers', prior', renamed := held, buffers, prior, [];
    if current != name {
      RenamedConsistent(held, buffers, prior, holding, before, id, name);
      if id !in prior {
        prior' := prior[id := current];
      }
      held' := NameIndex.CountUp(CountDown(held, current), name);
      buffers' := buffers[id := buffers[id].(name := name)];
      renamed := [(current, name)];
    } else {
      assert holding[id := name] == holding;
    }
  }

  /** Give each holder its name, keeping the counts and the names held when the
      event began, and listing the names that came and went. */
  method RenameHolders(h: seq<Holder>, names: seq<string>, held: map<string, nat>, buffers: map<Id, Buffer>,
                       prior: map<Id, string>, ghost holding: map<Id, string>, ghost before: map<Id, string>)
    returns (held': map<string, nat>, buffers': map<Id, Buffer>, prior': map<Id, string>,
             renamed: seq<(string, string)>)
    requires |names| == |h| && DistinctIds(h) && (forall t :: 0 <= t < |h| ==> h[t].1 in holding)
    requires Steady(held, buffers, prior, holding, before)
    ensures Steady(held', buffers', prior', Given(holding, h, names, |h|), before)
    ensures SameButNames(buffers, buffers')
    ensures renamed == Changes(holding, h, names, |h|)
  {
    held', buffers', prior', renamed := held, buffers, prior, [];
    ghost var now := holding;
    for t := 0 to |h|
      invariant now == Given(holding, h, names, t)
      invariant Steady(held', buffers', prior', now, before)
      invariant SameButNames(buffers, buffers')
      invariant renamed == Changes(holding, h, names, t)
    {
      ghost var was := buffers';
      assert h[t].1 in now && now[h[t].1] == holding[h[t].1] by { GivenIs(holding, h, names, t); }
      var change;
      held', buffers', prior', change := RenameOne(h[t].1, names[t], held', buffers', prior', now, before);
      assert SameButNames(buffers, buffers') by { SameButNamesStep(buffers, was, h[t].1, names[t]); }
      now := now[h[t].1 := names[t]];
      renamed := renamed + change;
    }
  }

  ghost predicate SameButNames(buffers: map<Id, Buffer>, buffers': map<Id, Buffer>) {
    && buffers'.Keys == buffers.Keys
    && forall id :: id in buffers ==> buffers'[id] == buffers[id].(name := buffers'[id].name)
  }

  lemma SameButNamesStep(buffers: map<Id, Buffer>, buffers': map<Id, Buffer>, id: Id, name: string)
    requires SameButNames(buffers, buffers') && id in buffers
    ensures SameButNames(buffers, buffers'[id := buffers'[id].(name := name)])
  {
  }

  // ----- naming one path: what it amounts to -----

  lemma GivenRegiven(plan: Plan, holding: map<Id, string>, w: string, names: seq<string>)
    requires plan.Valid() && plan.Fits(holding) && w in plan.base && |names| == |plan.holders[w]|
    ensures DistinctIds(plan.holders[w])
    ensures Regiven(plan, holding, Given(holding, plan.holders[w], names, |names|), w, names)
  {
    assert plan.Apart(w, w);
    GivenIs(holding, plan.holders[w], names, |names|);
  }

  lemma MovedIsChange(plan: Plan, holding: map<Id, string>, w: string, names: seq<string>, n: string)
    requires w in plan.base && w in plan.holders && |names| == |plan.holders[w]|
    requires DistinctIds(plan.holders[w]) && forall s :: 0 <= s < |names| ==> plan.holders[w][s].1 in holding
    ensures Moved(plan, holding, Given(holding, plan.holders[w], names, |names|), w, n) <==>
      exists p :: p in Changes(holding, plan.holders[w], names, |names|) && (n == p.0 || n == p.1)
  {
    ChangedIs(holding, plan.holders[w], names, n);
    GivenIs(holding, plan.holders[w], names, |names|);
  }

  lemma ChangedIs(holding: map<Id, string>, h: seq<Holder>, names: seq<string>, n: string)
    requires |h| == |names| && DistinctIds(h) && forall s :: 0 <= s < |h| ==> h[s].1 in holding
    ensures (exists p :: p in Changes(holding, h, names, |h|) && (n == p.0 || n == p.1)) <==>
      exists t :: 0 <= t < |h| && holding[h[t].1] != names[t] && (n == holding[h[t].1] || n == names[t])
  {
    ChangesAre(holding, h, names, |h|);
    if t :| 0 <= t < |h| && holding[h[t].1] != names[t] && (n == holding[h[t].1] || n == names[t]) {
      assert (holding[h[t].1], names[t]) in Changes(holding, h, names, |h|);
    }
  }

  /** The paths a list of names that came and went marks. */
  function RenamedDirty(groups: map<string, Group>, renamed: seq<(string, string)>): Dirty {
    set p, d | p in renamed && d in DerivedDirty(groups, p.0) + DerivedDirty(groups, p.1) :: d
  }

  /** Mark the paths whose `<N>` a name that came or went can be. */
  method MarkRenamed(groups: map<string, Group>, renamed: seq<(string, string)>, dirty: Dirty) returns (dirty': Dirty)
    ensures dirty' == dirty + RenamedDirty(groups, renamed)
  {
    dirty' := dirty;
    for i := 0 to |renamed|
      invariant dirty' == dirty + RenamedDirty(groups, renamed[..i])
    {
      dirty' := DerivedChanged(groups, renamed[i].0, dirty');
      dirty' := DerivedChanged(groups, renamed[i].1, dirty');
      RenamedMore(groups, renamed[..i], renamed[i]);
      assert renamed[..i + 1] == renamed[..i] + [renamed[i]];
    }
    assert renamed[..|renamed|] == renamed;
  }

  lemma RenamedMore(groups: map<string, Group>, renamed: seq<(string, string)>, p: (string, string))
    ensures RenamedDirty(groups, renamed + [p]) ==
      RenamedDirty(groups, renamed) + DerivedDirty(groups, p.0) + DerivedDirty(groups, p.1)
  {
    var more := renamed + [p];
    forall d | d in RenamedDirty(groups, more)
      ensures d in RenamedDirty(groups, renamed) + DerivedDirty(groups, p.0) + DerivedDirty(groups, p.1)
    {
      var r :| r in more && d in DerivedDirty(groups, r.0) + DerivedDirty(groups, r.1);
    }
    forall d | d in RenamedDirty(groups, renamed) ensures d in RenamedDirty(groups, more) {
      var r :| r in renamed && d in DerivedDirty(groups, r.0) + DerivedDirty(groups, r.1);
      assert r in more;
    }
    forall d | d in DerivedDirty(groups, p.0) + DerivedDirty(groups, p.1) ensures d in RenamedDirty(groups, more) {
      assert p in more;
    }
  }

  /** `renamed` lists the names that came and went. */
  ghost predicate Lists(plan: Plan, holding: map<Id, string>, holding': map<Id, string>, w: string,
                        renamed: seq<(string, string)>)
    requires w in plan.base && w in plan.holders
  {
    forall n :: Moved(plan, holding, holding', w, n) <==> exists p :: p in renamed && (n == p.0 || n == p.1)
  }

  lemma NameMarked(groups: map<string, Group>, open: Open, renamed: seq<(string, string)>, n: string, v: string)
    requires GroupsOk(groups, open) && Spelt(open) && v in open && SuffixOf(open[v], n)
    requires exists p :: p in renamed && (n == p.0 || n == p.1)
    ensures Marked(open, RenamedDirty(groups, renamed), v)
  {
    DerivedMarked(groups, open, n, v);
    var p :| p in renamed && (n == p.0 || n == p.1);
    assert (GroupAt(open, v), v) in DerivedDirty(groups, p.0) + DerivedDirty(groups, p.1);
  }

  lemma NamedMarks(plan: Plan, groups: map<string, Group>, holding: map<Id, string>, holding': map<Id, string>,
                   open: Open,
                   w: string, renamed: seq<(string, string)>, d: (string, string)) returns (n: string)
    requires GroupsOk(groups, open) && w in plan.base && w in plan.holders && Lists(plan, holding, holding', w, renamed)
    requires d in RenamedDirty(groups, renamed)
    ensures Moved(plan, holding, holding', w, n) && d.1 in open && NameAt(open[d.1]).Some?
      && NameAt(open[d.1]) == WithoutSuffix(n)
  {
    n := MarkedBy(groups, renamed, d);
    DerivedMarkedOnly(groups, open, n, d);
  }

  lemma MovesMarked(plan: Plan, groups: map<string, Group>, holding: map<Id, string>, holding': map<Id, string>,
                    open: Open, w: string,
                    renamed: seq<(string, string)>)
    requires GroupsOk(groups, open) && Spelt(open) && w in plan.base && w in plan.holders
      && Lists(plan, holding, holding', w, renamed)
    ensures forall n, v :: Moved(plan, holding, holding', w, n) && v in open && SuffixOf(open[v], n) ==>
      Marked(open, RenamedDirty(groups, renamed), v)
  {
    forall n, v | Moved(plan, holding, holding', w, n) && v in open
      && SuffixOf(open[v], n) ensures Marked(open, RenamedDirty(groups, renamed), v) {
      NameMarked(groups, open, renamed, n, v);
    }
  }

  lemma MarkedOnly(plan: Plan, groups: map<string, Group>, holding: map<Id, string>, holding': map<Id, string>,
                   open: Open, w: string,
                   renamed: seq<(string, string)>)
    requires GroupsOk(groups, open) && w in plan.base && w in plan.holders && Lists(plan, holding, holding', w, renamed)
    ensures forall d :: d in RenamedDirty(groups, renamed) ==> MarkedFor(plan, holding, open, holding', w, d)
  {
    forall d | d in RenamedDirty(groups, renamed) ensures MarkedFor(plan, holding, open, holding', w, d) {
      var n := NamedMarks(plan, groups, holding, holding', open, w, renamed, d);
    }
  }

  lemma NamedAssembled(plan: Plan, open: Open, holding: map<Id, string>, open': Open, holding': map<Id, string>,
                       w: string, next: Dirty, marks: Dirty)
    requires plan.Valid() && w in plan.base && plan.base.Keys == open.Keys == open'.Keys
    requires (forall v :: v in open && v != w ==> open'[v] == open[v]) && open'[w].names == open[w].names
    requires NameAt(open'[w]) == Some(plan.base[w])
    requires Regiven(plan, holding, holding', w, plan.Target(w, Others(holding, plan.holders[w])))
    requires forall n, v ::
      Moved(plan, holding, holding', w, n) && v in open' && SuffixOf(open'[v], n) ==> Marked(open', marks, v)
    requires forall d :: d in marks ==> MarkedFor(plan, holding, open', holding', w, d)
    ensures Named(plan, open, holding, open', holding', w, next, next + marks)
  {
    assert forall n, v ::
      Moved(plan, holding, holding', w, n) && v in open' && SuffixOf(open'[v], n) ==>
        Marked(open', next + marks, v) by {
      forall n, v | Moved(plan, holding, holding', w, n) && v in open'
        && SuffixOf(open'[v], n) ensures Marked(open', next + marks, v) {
        assert Marked(open', marks, v);
      }
    }
    assert forall d :: d in next + marks && d !in next ==> MarkedFor(plan, holding, open', holding', w, d);
  }

  /** Naming `w` and marking what its names can move is one step of settling. */
  lemma NamedFrom(plan: Plan, groups: map<string, Group>, open: Open, holding: map<Id, string>, open': Open,
                  holding': map<Id, string>,
                  w: string, renamed: seq<(string, string)>, next: Dirty)
    requires plan.Valid() && w in plan.base && plan.base.Keys == open.Keys == open'.Keys
    requires GroupsOk(groups, open') && Spelt(open')
    requires (forall v :: v in open && v != w ==> open'[v] == open[v]) && open'[w].names == open[w].names
    requires NameAt(open'[w]) == Some(plan.base[w])
    requires Regiven(plan, holding, holding', w, plan.Target(w, Others(holding, plan.holders[w])))
    requires Lists(plan, holding, holding', w, renamed)
    ensures Named(plan, open, holding, open', holding', w, next, next + RenamedDirty(groups, renamed))
  {
    MovesMarked(plan, groups, holding, holding', open', w, renamed);
    MarkedOnly(plan, groups, holding, holding', open', w, renamed);
    NamedAssembled(plan, open, holding, open', holding', w, next, RenamedDirty(groups, renamed));
  }

  lemma MarkedBy(groups: map<string, Group>, renamed: seq<(string, string)>, d: (string, string)) returns (n: string)
    requires d in RenamedDirty(groups, renamed)
    ensures d in DerivedDirty(groups, n) && exists p :: p in renamed && (n == p.0 || n == p.1)
  {
    var p :| p in renamed && d in DerivedDirty(groups, p.0) + DerivedDirty(groups, p.1);
    n := if d in DerivedDirty(groups, p.0) then p.0 else p.1;
  }
}

/** Filing a buffer in the naming index and unfiling it, as functions of the
    index (`join` and `leave` in src/buffer_registry.rs), and what they keep. */
module IndexFiling {
  import opened Options
  import opened NameText
  import opened BufferNames
  import opened HolderNaming
  import opened SessionNames
  import opened XorSets
  import opened NameIndex
  import opened IndexSteps
  import opened IndexMarks
  import opened IndexMembers

  /** The index but for the counts: the groups, each buffer's path, each buffer's
      place in the registry's order, and the next path's id. */
  datatype Files = Files(groups: map<string, Group>, member: map<Id, (string, string)>, place: map<Id, nat>,
                         nextPath: nat)

  /** The groups record the paths, and the paths their holders. */
  ghost predicate FilesOk(f: Files, open: Open) {
    && EntriesOk(open, f.nextPath)
    && GroupsOk(f.groups, open)
    && Spelt(open)
    && MembersOk(f.member, f.place, open)
  }

  // ----- join -----

  function JoinFiles(f: Files, id: Id, path: Path, names: Listed): Files
    requires id in f.place
  {
    var g, w := names[0], Last(names);
    var group := GroupIn(f.groups, g);
    if w in group.paths then
      var e := group.paths[w];
      var e' := e.(holders := WithHolder(e.holders, (f.place[id], id)));
      f.(groups := f.groups[g := group.(paths := group.paths[w := e'])], member := f.member[id := (g, w)])
    else
      var e := GroupPath(f.nextPath, path, names, [(f.place[id], id)], None);
      f.(groups := f.groups[g := Group(group.paths[w := e], SharedWith(group.shared, names, f.nextPath),
                                       group.named, group.byId[f.nextPath := w])],
         member := f.member[id := (g, w)], nextPath := f.nextPath + 1)
  }

  function JoinDirty(f: Files, names: Listed): Dirty {
    var g, w := names[0], Last(names);
    var group := GroupIn(f.groups, g);
    {(g, w)} + if w in group.paths then {} else SharedMarks(g, names, group.shared, group.named)
  }

  ghost function JoinOpen(f: Files, open: Open, id: Id, path: Path, names: Listed): Open
    requires id in f.place
  {
    var w := Last(names);
    if w in open then open[w := open[w].(holders := WithHolder(open[w].holders, (f.place[id], id)))]
    else open[w := GroupPath(f.nextPath, path, names, [(f.place[id], id)], None)]
  }

  /** A path is in its group exactly when it is open, with the same names. */
  lemma JoinKey(groups: map<string, Group>, open: Open, nextPath: nat, names: Listed)
    requires Flat(groups, open) && Spelt(open) && Spelling(names) && EntriesOk(open, nextPath)
    ensures Last(names) in GroupIn(groups, names[0]).paths <==> Last(names) in open
    ensures Last(names) in open ==> open[Last(names)].names == names
    ensures Last(names) in open ==> names[0] in groups && groups[names[0]].paths[Last(names)] == open[Last(names)]
  {
    var w := Last(names);
    if w in open {
      LastIsUnshared(names, open[w].names);
    }
  }

  lemma SpeltAt(open: Open, w: string, e: GroupPath)
    requires Spelt(open) && Spelling(e.names)
    ensures Spelt(open[w := e])
  {
  }

  lemma JoinHeldOk(f: Files, open: Open, id: Id, path: Path, names: Listed)
    requires FilesOk(f, open) && id in f.place && id !in f.member && Spelling(names) && Last(names) in open
    ensures FilesOk(JoinFiles(f, id, path, names), JoinOpen(f, open, id, path, names))
  {
    var w := Last(names);
    JoinKey(f.groups, open, f.nextPath, names);
    var h := WithHolder(open[w].holders, (f.place[id], id));
    assert GroupsOk(JoinFiles(f, id, path, names).groups, JoinOpen(f, open, id, path, names))
        && EntriesOk(JoinOpen(f, open, id, path, names), f.nextPath) by {
      Reheld(f.groups, open, f.nextPath, w, h);
    }
    assert Spelt(JoinOpen(f, open, id, path, names)) by { SpeltAt(open, w, open[w].(holders := h)); }
    JoinedHeld(f.member, f.place, open, w, id);
  }

  lemma JoinNewOk(f: Files, open: Open, id: Id, path: Path, names: Listed)
    requires FilesOk(f, open) && id in f.place && id !in f.member && Spelling(names) && Last(names) !in open
    ensures FilesOk(JoinFiles(f, id, path, names), JoinOpen(f, open, id, path, names))
  {
    var w := Last(names);
    var f', open' := JoinFiles(f, id, path, names), JoinOpen(f, open, id, path, names);
    var e := GroupPath(f.nextPath, path, names, [(f.place[id], id)], None);
    assert open' == open[w := e];
    assert w !in GroupIn(f.groups, names[0]).paths by { JoinKey(f.groups, open, f.nextPath, names); }
    assert f'.member == f.member[id := (names[0], w)] && f'.place == f.place && f'.nextPath == f.nextPath + 1;
    assert GroupsOk(f'.groups, open') && EntriesOk(open', f.nextPath + 1) by {
      Joined(f.groups, open, f.nextPath, w, e, SharedWith(GroupIn(f.groups, names[0]).shared, names, f.nextPath));
    }
    assert Spelt(open') by { SpeltAt(open, w, e); }
    assert MembersOk(f'.member, f'.place, open') by { JoinedNew(f.member, f.place, open, w, id, e); }
  }

  /** Joining keeps the index. */
  lemma JoinOk(f: Files, open: Open, id: Id, path: Path, names: Listed)
    requires FilesOk(f, open) && id in f.place && id !in f.member && Spelling(names)
    ensures FilesOk(JoinFiles(f, id, path, names), JoinOpen(f, open, id, path, names))
  {
    if Last(names) in open {
      JoinHeldOk(f, open, id, path, names);
    } else {
      JoinNewOk(f, open, id, path, names);
    }
  }

  lemma HoldersKnown(f: Files, open: Open, holding: map<Id, string>)
    requires FilesOk(f, open) && f.member.Keys <= holding.Keys
    ensures HoldersHold(holding, open)
  {
    forall w, t | w in open && 0 <= t < |open[w].holders| ensures open[w].holders[t].1 in holding {
      assert open[w].holders[t] in open[w].holders;
    }
  }

  lemma JoinUnmarked(f: Files, open: Open, id: Id, path: Path, names: Listed, dirty: Dirty, v: string)
    requires id in f.place && (Last(names) in open ==> open[Last(names)].names == names)
    requires v in JoinOpen(f, open, id, path, names)
      && !Marked(JoinOpen(f, open, id, path, names), dirty + JoinDirty(f, names), v)
    ensures v != Last(names) && v in open && !Marked(open, dirty + JoinDirty(f, names), v) && !Marked(open, dirty, v)
  {
  }

  lemma JoinReadyAt(f: Files, open: Open, id: Id, path: Path, names: Listed, res: set<string>, holding: map<Id, string>,
                    name: string, dirty: Dirty, excuse: set<string>, v: string)
    requires FilesOk(f, open) && id in f.place && id !in f.member && Spelling(names)
    requires id !in holding && HoldersHold(holding, open)
      && HoldersHold(holding[id := name], JoinOpen(f, open, id, path, names))
    requires v in open && v != Last(names) && !Marked(open, dirty + JoinDirty(f, names), v)
    requires Current(open, res, v) && Good(open, res, holding, excuse, v)
    ensures var open' := JoinOpen(f, open, id, path, names);
      v in open' && Current(open', res, v) && Good(open', res, holding[id := name], excuse + {name}, v)
  {
    var w := Last(names);
    if w in open {
      HeldKeeps(open, res, holding, excuse, w, WithHolder(open[w].holders, (f.place[id], id)), id, name, v);
    } else {
      JoinKey(f.groups, open, f.nextPath, names);
      var e := GroupPath(f.nextPath, path, names, [(f.place[id], id)], None);
      JoinKeeps(f.groups, open, f.nextPath, res, holding, excuse, w, e, id, name, dirty + JoinDirty(f, names), v);
    }
  }

  /** Joining leaves every unmarked path its name, but for the one `id` brought. */
  lemma JoinReady(f: Files, open: Open, id: Id, path: Path, names: Listed, res: set<string>, holding: map<Id, string>,
                  name: string, dirty: Dirty, excuse: set<string>)
    requires FilesOk(f, open) && id in f.place && id !in f.member && Spelling(names)
    requires id !in holding && HoldersHold(holding, open) && AllGood(open, res, holding, dirty, excuse)
    requires HoldersHold(holding[id := name], JoinOpen(f, open, id, path, names))
    ensures AllGood(JoinOpen(f, open, id, path, names), res, holding[id := name], dirty + JoinDirty(f, names),
                    excuse + {name})
  {
    var w, open', dirty' := Last(names), JoinOpen(f, open, id, path, names), dirty + JoinDirty(f, names);
    JoinKey(f.groups, open, f.nextPath, names);
    forall v | v in open' && !Marked(open', dirty', v)
      ensures Current(open', res, v) && Good(open', res, holding[id := name], excuse + {name}, v)
    {
      assert v != w && v in open && !Marked(open, dirty', v) && !Marked(open, dirty, v) by {
        JoinUnmarked(f, open, id, path, names, dirty, v);
      }
      JoinReadyAt(f, open, id, path, names, res, holding, name, dirty, excuse, v);
    }
  }

  // ----- leave -----

  function LeaveFiles(f: Files, id: Id): Files {
    if id !in f.member then f
    else
      var (g, w) := f.member[id];
      var f' := f.(member := f.member - {id});
      if id !in f.place || g !in f.groups || w !in f.groups[g].paths then f'
      else
        var group := f.groups[g];
        var e := group.paths[w];
        var h := Unheld(e.holders, f.place[id]);
        if h != [] then f'.(groups := f.groups[g := group.(paths := group.paths[w := e.(holders := h)])])
        else
          f'.(groups := Regroup(f.groups, g,
            Group(group.paths - {w}, SharedWithout(group.shared, e.names, e.id),
                  NamedWithout(group.named, e, w), group.byId - {e.id})))
  }

  /** The holders less the one at `place`. */
  function Unheld(h: seq<Holder>, place: nat): seq<Holder> {
    var at := PartitionPoint(h, place);
    if at < |h| && h[at].0 == place then WithoutAt(h, at) else h
  }

  function LeaveDirty(f: Files, id: Id): Dirty {
    if id !in f.member || id !in f.place then {}
    else
      var (g, w) := f.member[id];
      if g !in f.groups || w !in f.groups[g].paths then {}
      else
        var group := f.groups[g];
        var e := group.paths[w];
        if Unheld(e.holders, f.place[id]) != [] then {(g, w)}
        else UnsharedMarks(g, e.names, e.id, group.shared, group.byId - {e.id})
  }

  ghost function LeaveOpen(f: Files, open: Open, id: Id): Open
    requires id in f.member && id in f.place && f.member[id].1 in open
  {
    var w := f.member[id].1;
    var h := Unheld(open[w].holders, f.place[id]);
    if h != [] then open[w := open[w].(holders := h)] else open - {w}
  }

  /** The buffer's entry, as the groups and the paths record it. */
  lemma LeaveKey(f: Files, open: Open, id: Id) returns (at: nat)
    requires FilesOk(f, open) && id in f.member
    ensures id in f.place && f.member[id].1 in open
    ensures var (g, w) := f.member[id];
      && g == GroupAt(open, w) && g in f.groups && w in f.groups[g].paths && f.groups[g].paths[w] == open[w]
      && at < |open[w].holders| && open[w].holders[at] == (f.place[id], id)
      && Unheld(open[w].holders, f.place[id]) == WithoutAt(open[w].holders, at)
  {
    var w := f.member[id].1;
    HolderAt(f.member, f.place, open, id, FindPlace(open[w].holders, f.place[id]));
    at := PartitionPoint(open[w].holders, f.place[id]);
  }

  /** Leaving keeps the index. */
  lemma LeaveOk(f: Files, open: Open, id: Id)
    requires FilesOk(f, open) && id in f.member
    ensures id in f.place && f.member[id].1 in open
    ensures FilesOk(LeaveFiles(f, id), LeaveOpen(f, open, id))
  {
    var at := LeaveKey(f, open, id);
    if |open[f.member[id].1].holders| > 1 {
      LeaveHeldOk(f, open, id, at);
    } else {
      LeaveLastOk(f, open, id, at);
    }
  }

  lemma LeaveHeldOk(f: Files, open: Open, id: Id, at: nat)
    requires FilesOk(f, open) && id in f.member && id in f.place && f.member[id].1 in open
    requires var (g, w) := f.member[id];
      && g == GroupAt(open, w) && g in f.groups && w in f.groups[g].paths && f.groups[g].paths[w] == open[w]
      && at < |open[w].holders| && open[w].holders[at] == (f.place[id], id) && |open[w].holders| > 1
      && Unheld(open[w].holders, f.place[id]) == WithoutAt(open[w].holders, at)
    ensures FilesOk(LeaveFiles(f, id), LeaveOpen(f, open, id))
  {
    var (g, w) := f.member[id];
    var h := WithoutAt(open[w].holders, at);
    assert GroupsOk(LeaveFiles(f, id).groups, LeaveOpen(f, open, id))
      && EntriesOk(LeaveOpen(f, open, id), f.nextPath) by {
      Reheld(f.groups, open, f.nextPath, w, h);
    }
    assert Spelt(LeaveOpen(f, open, id)) by { SpeltAt(open, w, open[w].(holders := h)); }
    LeftHeld(f.member, f.place, open, id, at);
  }

  lemma LeaveLastOk(f: Files, open: Open, id: Id, at: nat)
    requires FilesOk(f, open) && id in f.member && id in f.place && f.member[id].1 in open
    requires var (g, w) := f.member[id];
      && g == GroupAt(open, w) && g in f.groups && w in f.groups[g].paths && f.groups[g].paths[w] == open[w]
      && at < |open[w].holders| && |open[w].holders| <= 1
      && Unheld(open[w].holders, f.place[id]) == WithoutAt(open[w].holders, at)
    ensures FilesOk(LeaveFiles(f, id), LeaveOpen(f, open, id))
  {
    var (g, w) := f.member[id];
    assert WithoutAt(open[w].holders, at) == [];
    assert GroupsOk(LeaveFiles(f, id).groups, LeaveOpen(f, open, id))
      && EntriesOk(LeaveOpen(f, open, id), f.nextPath) by {
      Left(f.groups, open, f.nextPath, w, SharedWithout(f.groups[g].shared, open[w].names, open[w].id));
    }
    assert Spelt(LeaveOpen(f, open, id));
    LeftLast(f.member, f.place, open, id);
  }

  lemma LeaveUnmarked(f: Files, open: Open, id: Id, dirty: Dirty, v: string)
    requires id in f.member && id in f.place && f.member[id].1 in open
    requires var (g, w) := f.member[id];
      g == GroupAt(open, w) && g in f.groups && w in f.groups[g].paths && f.groups[g].paths[w] == open[w]
    requires v in LeaveOpen(f, open, id) && !Marked(LeaveOpen(f, open, id), dirty + LeaveDirty(f, id), v)
    ensures v != f.member[id].1 && v in open && !Marked(open, dirty + LeaveDirty(f, id), v) && !Marked(open, dirty, v)
  {
  }

  lemma LeaveMarksAll(f: Files, open: Open, id: Id, dirty: Dirty)
    requires id in f.member && id in f.place && f.member[id].1 in open
    requires var (g, w) := f.member[id];
      g == GroupAt(open, w) && g in f.groups && w in f.groups[g].paths && f.groups[g].paths[w] == open[w]
    requires Unheld(open[f.member[id].1].holders, f.place[id]) == []
    ensures LeaveMarks(f.groups, open[f.member[id].1], dirty + LeaveDirty(f, id))
  {
  }

  lemma FewerReadyAt(f: Files, open: Open, id: Id, res: set<string>, holding: map<Id, string>, excuse: set<string>,
                     v: string)
    requires id in f.member && id in f.place && f.member[id].1 in open
      && Unheld(open[f.member[id].1].holders, f.place[id]) != []
    requires HoldersHold(holding, open) && HoldersHold(holding - {id}, LeaveOpen(f, open, id))
    requires v in open && v != f.member[id].1 && Current(open, res, v) && Good(open, res, holding, excuse, v)
    ensures var open' := LeaveOpen(f, open, id);
      v in open' && Current(open', res, v) && Good(open', res, holding - {id}, excuse, v)
  {
    var w := f.member[id].1;
    FewerKeeps(open, res, holding, excuse, w, Unheld(open[w].holders, f.place[id]), id, v);
  }

  lemma LastReadyAt(f: Files, open: Open, id: Id, res: set<string>, holding: map<Id, string>, dirty: Dirty,
                    excuse: set<string>, v: string)
    requires EntriesOk(open, f.nextPath) && GroupsOk(f.groups, open) && Spelt(open)
    requires id in f.member && id in f.place && f.member[id].1 in open
      && Unheld(open[f.member[id].1].holders, f.place[id]) == []
    requires var (g, w) := f.member[id];
      g == GroupAt(open, w) && g in f.groups && w in f.groups[g].paths && f.groups[g].paths[w] == open[w]
    requires HoldersHold(holding, open) && HoldersHold(holding - {id}, LeaveOpen(f, open, id))
    requires v in open && v != f.member[id].1 && !Marked(open, dirty + LeaveDirty(f, id), v)
    requires Current(open, res, v) && Good(open, res, holding, excuse, v)
    ensures var open' := LeaveOpen(f, open, id);
      v in open' && Current(open', res, v) && Good(open', res, holding - {id}, excuse, v)
  {
    var w := f.member[id].1;
    LeaveMarksAll(f, open, id, dirty);
    LeaveKeeps(f.groups, open, f.nextPath, res, holding, excuse, w, id, dirty + LeaveDirty(f, id), v);
  }

  lemma LeaveReadyAt(f: Files, open: Open, id: Id, res: set<string>, holding: map<Id, string>, dirty: Dirty,
                     excuse: set<string>, at: nat, v: string)
    requires FilesOk(f, open) && id in f.member && id in f.place && f.member[id].1 in open
    requires var (g, w) := f.member[id];
      g == GroupAt(open, w) && g in f.groups && w in f.groups[g].paths && f.groups[g].paths[w] == open[w]
    requires var w := f.member[id].1;
      at < |open[w].holders| && Unheld(open[w].holders, f.place[id]) == WithoutAt(open[w].holders, at)
    requires HoldersHold(holding, open) && HoldersHold(holding - {id}, LeaveOpen(f, open, id))
    requires v in open && v != f.member[id].1 && !Marked(open, dirty + LeaveDirty(f, id), v)
    requires Current(open, res, v) && Good(open, res, holding, excuse, v)
    ensures var open' := LeaveOpen(f, open, id);
      v in open' && Current(open', res, v) && Good(open', res, holding - {id}, excuse, v)
  {
    var w := f.member[id].1;
    if WithoutAt(open[w].holders, at) != [] {
      FewerReadyAt(f, open, id, res, holding, excuse, v);
    } else {
      LastReadyAt(f, open, id, res, holding, dirty, excuse, v);
    }
  }

  /** Leaving leaves every unmarked path its name. */
  lemma LeaveReady(f: Files, open: Open, id: Id, res: set<string>, holding: map<Id, string>, dirty: Dirty,
                   excuse: set<string>)
    requires FilesOk(f, open) && id in f.member && id in f.place && f.member[id].1 in open
    requires HoldersHold(holding, open) && AllGood(open, res, holding, dirty, excuse)
    requires HoldersHold(holding - {id}, LeaveOpen(f, open, id))
    ensures AllGood(LeaveOpen(f, open, id), res, holding - {id}, dirty + LeaveDirty(f, id), excuse)
  {
    var w, open', dirty' := f.member[id].1, LeaveOpen(f, open, id), dirty + LeaveDirty(f, id);
    var at := LeaveKey(f, open, id);
    forall v | v in open' && !Marked(open', dirty', v)
      ensures Current(open', res, v) && Good(open', res, holding - {id}, excuse, v)
    {
      assert v != w && v in open && !Marked(open, dirty', v) && !Marked(open, dirty, v) by {
        LeaveUnmarked(f, open, id, dirty, v);
      }
      LeaveReadyAt(f, open, id, res, holding, dirty, excuse, at, v);
    }
  }
}

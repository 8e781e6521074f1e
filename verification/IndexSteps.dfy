/** What filing and unfiling a buffer do to the naming index: the index still
    records the paths it should, and every path left unmarked needs no new name. */
module IndexSteps {
  import opened Options
  import opened NameText
  import opened BufferNames
  import opened HolderNaming
  import opened SessionNames
  import opened XorSets
  import opened NameIndex

  function GroupIn(groups: map<string, Group>, g: string): Group {
    if g in groups then groups[g] else EmptyGroup
  }

  // ----- a path joins -----

  lemma WithJoined(paths: Open, nextPath: nat, w: string, e: GroupPath, n: string)
    requires EntriesOk(paths, nextPath) && w !in paths && e.id == nextPath
    ensures nextPath !in With(paths, n)
    ensures With(paths[w := e], n) == if n in e.names then With(paths, n) + {nextPath} else With(paths, n)
  {
    var after := paths[w := e];
    forall i | i in With(paths, n) ensures i in With(after, n) {
      var v :| v in paths && n in paths[v].names && paths[v].id == i;
      assert after[v] == paths[v];
    }
    assert n in e.names ==> after[w].id in With(after, n);
  }

  lemma JoinedShared(shared: map<string, (nat, nat)>, shared': map<string, (nat, nat)>,
                     paths: Open, nextPath: nat, w: string, e: GroupPath)
    requires EntriesOk(paths, nextPath) && w !in paths && e.id == nextPath && SharedOk(shared, paths)
    requires shared' == SharedWith(shared, e.names, nextPath)
    ensures SharedOk(shared', paths[w := e])
  {
    var after := paths[w := e];
    forall n
      ensures n in shared' <==> With(after, n) != {}
      ensures n in shared' ==> shared'[n] == (|With(after, n)|, XorOf(With(after, n)))
    {
      WithJoined(paths, nextPath, w, e, n);
      Accumulated(With(paths, n), With(after, n), n in e.names, nextPath, if n in shared then shared[n] else (0, 0));
    }
  }

  lemma Accumulated(ids: set<nat>, ids': set<nat>, more: bool, id: nat, count: (nat, nat))
    requires id !in ids && ids' == (if more then ids + {id} else ids) && count == (|ids|, XorOf(ids))
    ensures Shared(count, more, id) == (|ids'|, XorOf(ids'))
  {
    XorOfAdd(ids, id);
  }

  lemma JoinedGroup(group: Group, shared': map<string, (nat, nat)>, nextPath: nat, w: string, e: GroupPath)
    requires EntriesOk(group.paths, nextPath) && GroupOk(group) && w !in group.paths
    requires e.id == nextPath && e.depth == None
    requires SharedOk(shared', group.paths[w := e])
    ensures GroupOk(Group(group.paths[w := e], shared', group.named, group.byId[nextPath := w]))
  {
    var paths' := group.paths[w := e];
    assert forall v :: v in group.paths ==> paths'[v] == group.paths[v] && v != w;
    assert NamedOk(group.named, paths');
    assert ByIdOk(group.byId[nextPath := w], paths');
  }

  lemma GroupEntries(groups: map<string, Group>, open: Open, nextPath: nat, g: string)
    requires EntriesOk(open, nextPath) && Flat(groups, open)
    ensures EntriesOk(GroupIn(groups, g).paths, nextPath)
    ensures forall w :: w in GroupIn(groups, g).paths ==> w in open && GroupIn(groups, g).paths[w] == open[w]
  {
    assert forall w :: w in GroupIn(groups, g).paths ==> w in open && GroupIn(groups, g).paths[w] == open[w];
  }

  lemma EmptyGroupOk()
    ensures GroupOk(EmptyGroup)
  {
    assert forall n :: With(EmptyGroup.paths, n) == {};
  }

  /** A path joins its group: the index records it among the others. */
  lemma Joined(groups: map<string, Group>, open: Open, nextPath: nat, w: string, e: GroupPath,
               shared': map<string, (nat, nat)>)
    requires EntriesOk(open, nextPath) && GroupsOk(groups, open) && w !in open
    requires e.id == nextPath && Last(e.names) == w && e.depth == None
    requires shared' == SharedWith(GroupIn(groups, e.names[0]).shared, e.names, nextPath)
    ensures EntriesOk(open[w := e], nextPath + 1)
    ensures var g, group := e.names[0], GroupIn(groups, e.names[0]);
      GroupsOk(groups[g := Group(group.paths[w := e], shared', group.named, group.byId[nextPath := w])], open[w := e])
  {
    var g, group := e.names[0], GroupIn(groups, e.names[0]);
    EmptyGroupOk();
    GroupEntries(groups, open, nextPath, g);
    JoinedShared(group.shared, shared', group.paths, nextPath, w, e);
    JoinedGroup(group, shared', nextPath, w, e);
    var group' := Group(group.paths[w := e], shared', group.named, group.byId[nextPath := w]);
    GroupsUpdated(groups, open, w, e, group');
    EntriesJoined(open, nextPath, w, e);
  }

  lemma EntriesJoined(open: Open, nextPath: nat, w: string, e: GroupPath)
    requires EntriesOk(open, nextPath) && w !in open && e.id == nextPath && Last(e.names) == w && e.depth == None
    ensures EntriesOk(open[w := e], nextPath + 1)
  {
  }

  lemma GroupsUpdated(groups: map<string, Group>, open: Open, w: string, e: GroupPath, group': Group)
    requires GroupsOk(groups, open) && (w in open ==> open[w].names[0] == e.names[0])
    requires group'.paths == GroupIn(groups, e.names[0]).paths[w := e] && GroupOk(group')
    ensures GroupsOk(groups[e.names[0] := group'], open[w := e])
  {
    FlatUpdated(groups, open, w, e, group');
    var groups' := groups[e.names[0] := group'];
    assert w in group'.paths;
    forall h | h in groups' ensures GroupOk(groups'[h]) && groups'[h].paths != map[] {
      if h != e.names[0] {
        assert groups'[h] == groups[h];
      }
    }
  }

  lemma FlatUpdated(groups: map<string, Group>, open: Open, w: string, e: GroupPath, group': Group)
    requires Flat(groups, open) && (w in open ==> open[w].names[0] == e.names[0])
    requires group'.paths == GroupIn(groups, e.names[0]).paths[w := e]
    ensures Flat(groups[e.names[0] := group'], open[w := e])
  {
  }

  // ----- a path stays, its holders or its filed name change -----

  ghost predicate SameNamesAndIds(paths: Open, paths': Open) {
    paths.Keys == paths'.Keys && forall v ::
    v in paths ==> paths'[v].names == paths[v].names && paths'[v].id == paths[v].id
  }

  lemma SameWith(paths: Open, paths': Open, n: string)
    requires SameNamesAndIds(paths, paths')
    ensures With(paths', n) == With(paths, n)
  {
    assert forall v :: v in paths ==> v in paths' && paths'[v].names == paths[v].names && paths'[v].id == paths[v].id;
  }

  lemma SameOpenSet(open: Open, open': Open)
    requires SameNamesAndIds(open, open')
    ensures OpenSet(open') == OpenSet(open)
  {
    assert forall v :: v in open ==> v in open' && open'[v].names == open[v].names;
  }

  lemma SameShared(shared: map<string, (nat, nat)>, paths: Open, paths': Open)
    requires SharedOk(shared, paths) && SameNamesAndIds(paths, paths')
    ensures SharedOk(shared, paths')
  {
    forall n ensures With(paths', n) == With(paths, n) {
      SameWith(paths, paths', n);
    }
  }

  lemma EntryChanged(open: Open, nextPath: nat, w: string, e: GroupPath)
    requires EntriesOk(open, nextPath) && w in open && e.names == open[w].names && e.id == open[w].id
    requires e.depth.Some? ==> e.depth.value < |e.names|
    ensures EntriesOk(open[w := e], nextPath) && SameNamesAndIds(open, open[w := e])
  {
  }

  lemma ReheldGroup(group: Group, w: string, h: seq<Holder>)
    requires GroupOk(group) && w in group.paths
    ensures GroupOk(group.(paths := group.paths[w := group.paths[w].(holders := h)]))
  {
    var paths' := group.paths[w := group.paths[w].(holders := h)];
    SameShared(group.shared, group.paths, paths');
    assert NamedOk(group.named, paths');
    assert ByIdOk(group.byId, paths');
  }

  /** An entry that differs only in its holders. */
  lemma Reheld(groups: map<string, Group>, open: Open, nextPath: nat, w: string, h: seq<Holder>)
    requires EntriesOk(open, nextPath) && GroupsOk(groups, open) && w in open
    ensures var e, g := open[w].(holders := h), GroupAt(open, w);
      && EntriesOk(open[w := e], nextPath)
      && GroupsOk(groups[g := groups[g].(paths := groups[g].paths[w := e])], open[w := e])
      && SameNamesAndIds(open, open[w := e])
  {
    var e, g := open[w].(holders := h), GroupAt(open, w);
    var group := groups[g];
    var group' := group.(paths := group.paths[w := e]);
    EntryChanged(open, nextPath, w, e);
    ReheldGroup(group, w, h);
    GroupsUpdated(groups, open, w, e, group');
  }

  /** The names a group files paths under, less the one it files `w` under. */
  function NamedWithout(named: map<string, string>, e: GroupPath, w: string): map<string, string> {
    match NameAt(e)
    case None => named
    case Some(n) => if n in named && named[n] == w then named - {n} else named
  }

  lemma RenamedOk(named: map<string, string>, paths: Open, w: string, d: nat)
    requires NamedOk(named, paths) && w in paths && d < |paths[w].names|
    requires forall v :: v in paths && v != w ==> paths[w].names[d] !in paths[v].names
    ensures NamedOk(NamedWithout(named, paths[w], w)[paths[w].names[d] := w], paths[w := paths[w].(depth := Some(d))])
  {
    var n := paths[w].names[d];
    var paths' := paths[w := paths[w].(depth := Some(d))];
    var named' := NamedWithout(named, paths[w], w)[n := w];
    forall v | v in paths && v != w && NameAt(paths[v]).Some? ensures NameAt(paths[v]).value != n {
      assert NameAt(paths[v]).value in paths[v].names;
    }
  }

  lemma RenamedGroup(group: Group, w: string, d: nat)
    requires GroupOk(group) && w in group.paths && d < |group.paths[w].names|
    requires forall v :: v in group.paths && v != w ==> group.paths[w].names[d] !in group.paths[v].names
    ensures GroupOk(group.(
      paths := group.paths[w := group.paths[w].(depth := Some(d))],
      named := NamedWithout(group.named, group.paths[w], w)[group.paths[w].names[d] := w]))
  {
    var paths' := group.paths[w := group.paths[w].(depth := Some(d))];
    SameShared(group.shared, group.paths, paths');
    RenamedOk(group.named, group.paths, w, d);
    assert ByIdOk(group.byId, paths');
  }

  /** A path is filed under a name that is its alone. */
  lemma Renamed(groups: map<string, Group>, open: Open, nextPath: nat, w: string, d: nat)
    requires EntriesOk(open, nextPath) && GroupsOk(groups, open) && w in open && d < |open[w].names|
    requires forall v :: v in open && v != w ==> open[w].names[d] !in open[v].names
    ensures var e, g := open[w].(depth := Some(d)), GroupAt(open, w);
      var group := groups[g];
      var named' := NamedWithout(group.named, open[w], w)[open[w].names[d] := w];
      && EntriesOk(open[w := e], nextPath)
      && GroupsOk(groups[g := group.(paths := group.paths[w := e], named := named')], open[w := e])
      && SameNamesAndIds(open, open[w := e])
  {
    var e, g := open[w].(depth := Some(d)), GroupAt(open, w);
    var group := groups[g];
    var named' := NamedWithout(group.named, open[w], w)[open[w].names[d] := w];
    var group' := group.(paths := group.paths[w := e], named := named');
    EntryChanged(open, nextPath, w, e);
    GroupEntries(groups, open, nextPath, g);
    RenamedGroup(group, w, d);
    GroupsUpdated(groups, open, w, e, group');
  }

  // ----- a path leaves -----

  lemma WithLeft(paths: Open, nextPath: nat, w: string, n: string)
    requires EntriesOk(paths, nextPath) && w in paths
    ensures With(paths - {w}, n) == if n in paths[w].names then With(paths, n) - {paths[w].id} else With(paths, n)
    ensures n in paths[w].names ==> paths[w].id in With(paths, n)
  {
    var after := paths - {w};
    forall i | i in With(paths, n) && i != paths[w].id ensures i in With(after, n) {
      var v :| v in paths && n in paths[v].names && paths[v].id == i;
      assert v in after && after[v] == paths[v];
    }
    forall i | i in With(after, n) ensures i in With(paths, n) && i != paths[w].id {
      var v :| v in after && n in after[v].names && after[v].id == i;
      assert v in paths && paths[v] == after[v];
    }
  }

  lemma Deducted(ids: set<nat>, ids': set<nat>, less: bool, id: nat, count: (nat, nat))
    requires (less ==> id in ids) && ids' == (if less then ids - {id} else ids) && count == (|ids|, XorOf(ids))
    ensures Unshared(count, less, id) == (|ids'|, XorOf(ids'))
  {
    if less {
      XorOfRemove(ids, id);
      XorUndo(XorOf(ids'), id);
    }
  }

  lemma LeftShared(shared: map<string, (nat, nat)>, shared': map<string, (nat, nat)>, paths: Open, nextPath: nat,
                   w: string)
    requires EntriesOk(paths, nextPath) && w in paths && SharedOk(shared, paths)
    requires shared' == SharedWithout(shared, paths[w].names, paths[w].id)
    ensures SharedOk(shared', paths - {w})
  {
    var after := paths - {w};
    forall n
      ensures n in shared' <==> With(after, n) != {}
      ensures n in shared' ==> shared'[n] == (|With(after, n)|, XorOf(With(after, n)))
    {
      WithLeft(paths, nextPath, w, n);
      if n in shared {
        Deducted(With(paths, n), With(after, n), n in paths[w].names, paths[w].id, shared[n]);
      }
    }
  }

  lemma LeftNamed(named: map<string, string>, paths: Open, w: string)
    requires NamedOk(named, paths) && w in paths
    ensures NamedOk(NamedWithout(named, paths[w], w), paths - {w})
  {
    assert forall v :: v in paths - {w} ==> (paths - {w})[v] == paths[v];
  }

  lemma LeftById(byId: map<nat, string>, paths: Open, nextPath: nat, w: string)
    requires EntriesOk(paths, nextPath) && ByIdOk(byId, paths) && w in paths
    ensures ByIdOk(byId - {paths[w].id}, paths - {w})
  {
    assert forall v :: v in paths - {w} ==> (paths - {w})[v] == paths[v];
  }

  lemma SharedAtLeast(shared: map<string, (nat, nat)>, paths: Open, w: string)
    requires SharedOk(shared, paths) && w in paths
    ensures forall n :: n in paths[w].names ==> n in shared && shared[n].0 >= 1
  {
    forall n | n in paths[w].names ensures n in shared && shared[n].0 >= 1 {
      assert paths[w].id in With(paths, n);
    }
  }

  /** A group with no path left is dropped. */
  function Regroup(groups: map<string, Group>, g: string, group: Group): map<string, Group> {
    if group.paths == map[] then groups - {g} else groups[g := group]
  }

  lemma FlatLeft(groups: map<string, Group>, open: Open, w: string, group': Group)
    requires Flat(groups, open) && w in open
    requires group'.paths == groups[GroupAt(open, w)].paths - {w}
    ensures var g := GroupAt(open, w);
      Flat(Regroup(groups, g, group'), open - {w})
  {
    var g, open' := GroupAt(open, w), open - {w};
    var groups' := Regroup(groups, g, group');
    assert forall v :: v in open' ==> v in open && open'[v] == open[v];
    forall h, v | h in groups' && v in groups'[h].paths ensures v in open' && open'[v] == groups'[h].paths[v]
      && GroupAt(open', v) == h {
      assert v in groups[h].paths && open[v] == groups[h].paths[v] && v != w;
    }
    forall v | v in open' ensures GroupAt(open', v) in groups' && v in groups'[GroupAt(open', v)].paths {
      assert v in groups[GroupAt(open, v)].paths && GroupAt(open', v) == GroupAt(open, v);
      if GroupAt(open, v) == g {
        assert v in group'.paths;
      }
    }
  }

  /** A path no buffer holds any more leaves its group. */
  lemma Left(groups: map<string, Group>, open: Open, nextPath: nat, w: string, shared': map<string, (nat, nat)>)
    requires EntriesOk(open, nextPath) && GroupsOk(groups, open) && w in open
    requires shared' == SharedWithout(groups[GroupAt(open, w)].shared, open[w].names, open[w].id)
    ensures EntriesOk(open - {w}, nextPath)
    ensures var g := GroupAt(open, w);
      var group := groups[g];
      var group' := Group(group.paths - {w}, shared', NamedWithout(group.named, open[w], w), group.byId - {open[w].id});
      GroupsOk(Regroup(groups, g, group'), open - {w})
  {
    var g := GroupAt(open, w);
    var group := groups[g];
    var group' := Group(group.paths - {w}, shared', NamedWithout(group.named, open[w], w), group.byId - {open[w].id});
    GroupEntries(groups, open, nextPath, g);
    assert group.paths[w] == open[w];
    LeftGroup(group, nextPath, w, shared');
    EntriesLeft(open, nextPath, w);
    GroupsLeft(groups, open, w, group');
  }

  lemma GroupsLeft(groups: map<string, Group>, open: Open, w: string, group': Group)
    requires GroupsOk(groups, open) && w in open
    requires group'.paths == groups[GroupAt(open, w)].paths - {w} && GroupOk(group')
    ensures var g := GroupAt(open, w);
      GroupsOk(Regroup(groups, g, group'), open - {w})
  {
    FlatLeft(groups, open, w, group');
    AllGroupsOk(groups, GroupAt(open, w), group');
  }

  lemma AllGroupsOk(groups: map<string, Group>, g: string, group': Group)
    requires forall h :: h in groups ==> GroupOk(groups[h]) && groups[h].paths != map[]
    requires GroupOk(group')
    ensures forall h :: h in Regroup(groups, g, group') ==>
      GroupOk(Regroup(groups, g, group')[h]) && Regroup(groups, g, group')[h].paths != map[]
  {
    var groups' := Regroup(groups, g, group');
    forall h | h in groups' ensures GroupOk(groups'[h]) && groups'[h].paths != map[] {
      assert h != g ==> groups'[h] == groups[h];
    }
  }

  lemma EntriesLeft(open: Open, nextPath: nat, w: string)
    requires EntriesOk(open, nextPath)
    ensures EntriesOk(open - {w}, nextPath)
  {
    assert forall v :: v in open - {w} ==> (open - {w})[v] == open[v];
  }

  lemma LeftGroup(group: Group, nextPath: nat, w: string, shared': map<string, (nat, nat)>)
    requires EntriesOk(group.paths, nextPath) && GroupOk(group) && w in group.paths
    requires shared' == SharedWithout(group.shared, group.paths[w].names, group.paths[w].id)
    ensures var e := group.paths[w];
      GroupOk(Group(group.paths - {w}, shared', NamedWithout(group.named, e, w), group.byId - {e.id}))
  {
    LeftShared(group.shared, shared', group.paths, nextPath, w);
    LeftNamed(group.named, group.paths, w);
    LeftById(group.byId, group.paths, nextPath, w);
  }
}

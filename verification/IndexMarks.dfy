/** Every path an event can rename is marked: what is left unmarked when a path
    joins or leaves, or a reserved name comes or goes, keeps its name. */
module IndexMarks {
  import opened Options
  import opened NameText
  import opened BufferNames
  import opened HolderNaming
  import opened SessionNames
  import opened XorSets
  import opened NameIndex
  import opened IndexSteps

  lemma DepthKept(open: set<seq<string>>, res: set<string>, open': set<seq<string>>, res': set<string>, a: seq<string>)
    requires a != []
    requires var d := Depth(open, res, a);
      && (forall k :: 0 <= k < d ==> SharedIn(open', a[k]) || a[k] in res')
      && (d < |a| - 1 ==> !SharedIn(open', a[d]) && a[d] !in res')
    ensures Depth(open', res', a) == Depth(open, res, a)
  {
    NameDepthIs(a, n => SharedIn(open', n), n => n in res', Depth(open, res, a));
  }

  /** A path whose name stays, and whose holders' names nobody else takes, needs
      no renaming. */
  lemma GoodKept(open: Open, res: set<string>, holding: map<Id, string>,
                 open': Open, res': set<string>, holding': map<Id, string>, excuse: set<string>, v: string)
    requires v in open && v in open' && open'[v] == open[v]
    requires HoldersHold(holding, open) && HoldersHold(holding', open')
    requires Current(open, res, v) && Good(open, res, holding, excuse, v)
    requires Depth(OpenSet(open'), res', open[v].names) == Depth(OpenSet(open), res, open[v].names)
    requires BaseOf(open, res, v) in res <==> BaseOf(open, res, v) in res'
    requires NamesAt(holding', open[v].holders) == NamesAt(holding, open[v].holders)
    requires forall n :: n in NamesAt(holding, open[v].holders) && n != BaseOf(open, res, v) ==>
      n !in Others(holding, open[v].holders) ==> n !in Others(holding', open[v].holders)
    ensures Current(open', res', v) && Good(open', res', holding', excuse, v)
  {
  }

  /** No unmarked path's holder but one showing the plain name holds `name`. */
  ghost predicate Clear(open: Open, res: set<string>, holding: map<Id, string>, dirty: Dirty, name: string)
    requires HoldersHold(holding, open)
  {
    forall v :: v in open && !Marked(open, dirty, v) && name in NamesAt(holding, open[v].holders) ==>
      name == BaseOf(open, res, v)
  }

  lemma OthersMore(holding: map<Id, string>, id: Id, name: string, h: seq<Holder>)
    requires id !in holding && id !in IdsOf(h)
    ensures Others(holding[id := name], h) == Others(holding, h) + {name}
  {
    var after := holding[id := name];
    forall n | n in Others(holding, h) ensures n in Others(after, h) {
      var i :| i in holding && i !in IdsOf(h) && holding[i] == n;
      assert after[i] == n;
    }
    assert after[id] in Others(after, h);
  }

  lemma OthersFewer(holding: map<Id, string>, id: Id, h: seq<Holder>)
    ensures Others(holding - {id}, h) <= Others(holding, h)
  {
  }

  // ----- a path joins -----

  lemma SetJoined(open: Open, w: string, e: GroupPath)
    requires w !in open
    ensures OpenSet(open[w := e]) == OpenSet(open) + {e.names}
  {
    var open' := open[w := e];
    assert forall v :: v in open ==> v in open' && open'[v] == open[v];
    assert open'[w].names in OpenSet(open');
  }

  lemma SharedJoined(open: Open, w: string, e: GroupPath, n: string)
    requires w !in open
    ensures SharedIn(OpenSet(open), n) ==> SharedIn(OpenSet(open[w := e]), n)
    ensures SharedIn(OpenSet(open[w := e]), n) && !SharedIn(OpenSet(open), n) ==> n in e.names
  {
    SetJoined(open, w, e);
    if SharedIn(OpenSet(open), n) {
      var a, b :| a in OpenSet(open) && b in OpenSet(open) && a != b && n in a && n in b;
      SharedBy(OpenSet(open[w := e]), a, b, n);
    }
    if SharedIn(OpenSet(open[w := e]), n) && n !in e.names {
      var a, b :| a in OpenSet(open[w := e]) && b in OpenSet(open[w := e]) && a != b && n in a && n in b;
      SharedBy(OpenSet(open), a, b, n);
    }
  }

  /** The marks a path leaves as it joins. */
  ghost predicate JoinMarks(groups: map<string, Group>, e: GroupPath, dirty: Dirty) {
    SharedMarks(e.names[0], e.names, GroupIn(groups, e.names[0]).shared, GroupIn(groups, e.names[0]).named) <= dirty
  }

  /** A path whose name the newcomer has was marked. */
  lemma JoinMarked(groups: map<string, Group>, open: Open, nextPath: nat, e: GroupPath, dirty: Dirty, v: string)
    requires EntriesOk(open, nextPath) && GroupsOk(groups, open) && Spelt(open) && Spelling(e.names)
    requires v in open && NameAt(open[v]).Some? && NameAt(open[v]).value in e.names
    requires !SharedIn(OpenSet(open), NameAt(open[v]).value)
    requires JoinMarks(groups, e, dirty)
    ensures Marked(open, dirty, v)
  {
    var n := NameAt(open[v]).value;
    NamesInGroup(open, v, n);
    SpellingGroup(e.names, n);
    var group := groups[GroupAt(open, v)];
    WithInGroup(groups, open, v, n);
    SharedIsMany(open, nextPath, n);
    SoleHolder(open, nextPath, n, v);
    FiledSole(group, v, n);
  }

  lemma FiledSole(group: Group, v: string, n: string)
    requires GroupOk(group) && v in group.paths && NameAt(group.paths[v]) == Some(n) && |With(group.paths, n)| == 1
    ensures n in group.shared && group.shared[n].0 == 1 && n in group.named && group.named[n] == v
  {
    assert group.paths[v].id in With(group.paths, n);
  }

  lemma JoinUnshared(groups: map<string, Group>, open: Open, nextPath: nat, w: string, e: GroupPath, dirty: Dirty,
                     v: string, n: string)
    requires EntriesOk(open, nextPath) && GroupsOk(groups, open) && Spelt(open) && Spelling(e.names) && w !in open
    requires v in open && JoinMarks(groups, e, dirty) && !Marked(open, dirty, v)
    requires NameAt(open[v]) == Some(n) && !SharedIn(OpenSet(open), n)
    ensures !SharedIn(OpenSet(open[w := e]), n)
  {
    SharedJoined(open, w, e, n);
    if n in e.names {
      JoinMarked(groups, open, nextPath, e, dirty, v);
    }
  }

  lemma JoinDepthKept(groups: map<string, Group>, open: Open, nextPath: nat, res: set<string>, w: string, e: GroupPath,
                      dirty: Dirty, v: string)
    requires EntriesOk(open, nextPath) && GroupsOk(groups, open) && Spelt(open) && Spelling(e.names) && w !in open
    requires v in open && Current(open, res, v) && JoinMarks(groups, e, dirty) && !Marked(open, dirty, v)
    ensures Depth(OpenSet(open[w := e]), res, open[v].names) == Depth(OpenSet(open), res, open[v].names)
  {
    var a := open[v].names;
    var d := Depth(OpenSet(open), res, a);
    forall k | 0 <= k < d ensures SharedIn(OpenSet(open[w := e]), a[k]) || a[k] in res {
      SharedJoined(open, w, e, a[k]);
    }
    if d < |a| - 1 {
      JoinUnshared(groups, open, nextPath, w, e, dirty, v, a[d]);
    }
    DepthKept(OpenSet(open), res, OpenSet(open[w := e]), res, a);
  }

  /** An unmarked path keeps its name when the buffer `id`, holding `name`, is
      filed under a path no buffer held. */
  lemma JoinKeeps(groups: map<string, Group>, open: Open, nextPath: nat, res: set<string>, holding: map<Id, string>,
                  excuse: set<string>,
                  w: string, e: GroupPath, id: Id, name: string, dirty: Dirty, v: string)
    requires EntriesOk(open, nextPath) && GroupsOk(groups, open) && Spelt(open) && Spelling(e.names) && w !in open
    requires HoldersHold(holding, open) && HoldersHold(holding[id := name], open[w := e]) && id !in holding
    requires JoinMarks(groups, e, dirty)
    requires v in open && !Marked(open, dirty, v) && Current(open, res, v) && Good(open, res, holding, excuse, v)
    ensures Current(open[w := e], res, v) && Good(open[w := e], res, holding[id := name], excuse + {name}, v)
  {
    JoinDepthKept(groups, open, nextPath, res, w, e, dirty, v);
    HeldMore(open, res, holding, excuse, open[w := e], id, name, v);
  }

  /** One more buffer holds a name: only that name can trouble another path. */
  lemma HeldMore(open: Open, res: set<string>, holding: map<Id, string>, excuse: set<string>, open': Open, id: Id,
                 name: string, v: string)
    requires v in open && v in open' && open'[v] == open[v] && id !in holding
    requires HoldersHold(holding, open) && HoldersHold(holding[id := name], open')
      && Good(open, res, holding, excuse, v)
    requires Depth(OpenSet(open'), res, open[v].names) == Depth(OpenSet(open), res, open[v].names)
    ensures Good(open', res, holding[id := name], excuse + {name}, v)
  {
    OthersMore(holding, id, name, open[v].holders);
    assert NamesAt(holding[id := name], open[v].holders) == NamesAt(holding, open[v].holders);
  }

  /** A buffer joins a path already held. */
  lemma HeldKeeps(open: Open, res: set<string>, holding: map<Id, string>, excuse: set<string>, w: string,
                  h: seq<Holder>, id: Id, name: string, v: string)
    requires w in open && v in open && v != w && id !in holding
    requires HoldersHold(holding, open) && HoldersHold(holding[id := name], open[w := open[w].(holders := h)])
    requires Current(open, res, v) && Good(open, res, holding, excuse, v)
    ensures var open' := open[w := open[w].(holders := h)];
      Current(open', res, v) && Good(open', res, holding[id := name], excuse + {name}, v)
  {
    var open' := open[w := open[w].(holders := h)];
    SameOpenSet(open, open');
    HeldMore(open, res, holding, excuse, open', id, name, v);
  }

  /** A name no unmarked path has for a `<N>` needs no excuse. */
  lemma ClearIsGood(open: Open, res: set<string>, holding: map<Id, string>, dirty: Dirty, excuse: set<string>,
                    name: string)
    requires HoldersHold(holding, open) && AllGood(open, res, holding, dirty, excuse + {name})
    requires Clear(open, res, holding, dirty, name)
    ensures AllGood(open, res, holding, dirty, excuse)
  {
  }

  // ----- a path leaves -----

  lemma SetLeft(open: Open, nextPath: nat, w: string)
    requires EntriesOk(open, nextPath) && w in open
    ensures OpenSet(open - {w}) == OpenSet(open) - {open[w].names}
  {
    var open' := open - {w};
    assert forall v :: v in open' ==> v in open && open'[v] == open[v];
    forall a | a in OpenSet(open) && a != open[w].names ensures a in OpenSet(open') {
      var v :| v in open && open[v].names == a;
      assert v in open' && open'[v] == open[v];
    }
    assert forall v :: v in open' ==> Last(open[v].names) != Last(open[w].names);
  }

  lemma SharedLeft(open: Open, nextPath: nat, w: string, n: string)
    requires EntriesOk(open, nextPath) && w in open
    ensures SharedIn(OpenSet(open - {w}), n) ==> SharedIn(OpenSet(open), n)
    ensures SharedIn(OpenSet(open), n) && !SharedIn(OpenSet(open - {w}), n) ==> n in open[w].names
  {
    SetLeft(open, nextPath, w);
    if SharedIn(OpenSet(open - {w}), n) {
      var a, b :| a in OpenSet(open - {w}) && b in OpenSet(open - {w}) && a != b && n in a && n in b;
      SharedBy(OpenSet(open), a, b, n);
    }
    if SharedIn(OpenSet(open), n) && n !in open[w].names {
      var a, b :| a in OpenSet(open) && b in OpenSet(open) && a != b && n in a && n in b;
      SharedBy(OpenSet(open - {w}), a, b, n);
    }
  }

  /** The marks a path leaves as it goes. */
  ghost predicate LeaveMarks(groups: map<string, Group>, e: GroupPath, dirty: Dirty)
    requires e.names[0] in groups
  {
    UnsharedMarks(e.names[0], e.names, e.id, groups[e.names[0]].shared, groups[e.names[0]].byId - {e.id}) <= dirty
  }

  lemma OneLeft(ids: set<nat>, i: nat, j: nat)
    requires i in ids && j in ids && i != j && ids - {i} == {j}
    ensures |ids| == 2 && Xor(XorOf(ids), i) == j
  {
    XorOfRemove(ids, i);
    XorOfOne(ids - {i}, j);
    XorUndo(j, i);
    assert |ids - {i}| == |ids| - 1;
  }

  /** A path left alone with a name it shared was marked. */
  lemma LeaveMarked(groups: map<string, Group>, open: Open, nextPath: nat, w: string, dirty: Dirty, v: string,
                    n: string)
    requires EntriesOk(open, nextPath) && GroupsOk(groups, open) && Spelt(open) && w in open && v in open && v != w
    requires n in open[v].names && n in open[w].names && !SharedIn(OpenSet(open - {w}), n)
    requires LeaveMarks(groups, open[w], dirty)
    ensures Marked(open, dirty, v)
  {
    NamesInGroup(open, v, n);
    NamesInGroup(open, w, n);
    var group := groups[GroupAt(open, w)];
    WithInGroup(groups, open, w, n);
    WithLeft(open, nextPath, w, n);
    var open' := open - {w};
    EntriesLeft(open, nextPath, w);
    SharedIsMany(open', nextPath, n);
    assert v in open' && open'[v] == open[v];
    SoleHolder(open', nextPath, n, v);
    OneLeft(With(open, n), open[w].id, open[v].id);
    LeftAlone(group, nextPath, w, v, n);
  }

  lemma LeftAlone(group: Group, nextPath: nat, w: string, v: string, n: string)
    requires GroupOk(group) && w in group.paths && v in group.paths && n in group.paths[w].names
    requires |With(group.paths, n)| == 2 && Xor(XorOf(With(group.paths, n)), group.paths[w].id) == group.paths[v].id
    requires group.paths[v].id != group.paths[w].id
    ensures n in group.shared && group.shared[n].0 == 2
    ensures Xor(group.shared[n].1, group.paths[w].id) in group.byId - {group.paths[w].id}
    ensures group.byId[Xor(group.shared[n].1, group.paths[w].id)] == v
  {
  }

  lemma LeaveDepthKept(groups: map<string, Group>, open: Open, nextPath: nat, res: set<string>, w: string, dirty: Dirty,
                       v: string)
    requires EntriesOk(open, nextPath) && GroupsOk(groups, open) && Spelt(open) && w in open
    requires v in open && v != w && LeaveMarks(groups, open[w], dirty) && !Marked(open, dirty, v)
    ensures Depth(OpenSet(open - {w}), res, open[v].names) == Depth(OpenSet(open), res, open[v].names)
  {
    var a := open[v].names;
    var d := Depth(OpenSet(open), res, a);
    forall k | 0 <= k < d ensures SharedIn(OpenSet(open - {w}), a[k]) || a[k] in res {
      SharedLeft(open, nextPath, w, a[k]);
      if a[k] in open[w].names && !SharedIn(OpenSet(open - {w}), a[k]) {
        LeaveMarked(groups, open, nextPath, w, dirty, v, a[k]);
      }
    }
    SharedLeft(open, nextPath, w, a[d]);
    DepthKept(OpenSet(open), res, OpenSet(open - {w}), res, a);
  }

  /** Unmarked paths keep their names when a path's last holder goes. */
  lemma LeaveKeeps(groups: map<string, Group>, open: Open, nextPath: nat, res: set<string>, holding: map<Id, string>,
                   excuse: set<string>,
                   w: string, id: Id, dirty: Dirty, v: string)
    requires EntriesOk(open, nextPath) && GroupsOk(groups, open) && Spelt(open) && w in open
    requires HoldersHold(holding, open) && HoldersHold(holding - {id}, open - {w})
    requires LeaveMarks(groups, open[w], dirty)
    requires v in open && v != w && !Marked(open, dirty, v) && Current(open, res, v)
      && Good(open, res, holding, excuse, v)
    ensures Current(open - {w}, res, v) && Good(open - {w}, res, holding - {id}, excuse, v)
  {
    LeaveDepthKept(groups, open, nextPath, res, w, dirty, v);
    OthersFewer(holding, id, open[v].holders);
    assert (open - {w})[v] == open[v];
    assert NamesAt(holding - {id}, open[v].holders) == NamesAt(holding, open[v].holders);
    GoodKept(open, res, holding, open - {w}, res, holding - {id}, excuse, v);
  }

  /** Unmarked paths keep their names when one of several holders goes. */
  lemma FewerKeeps(open: Open, res: set<string>, holding: map<Id, string>, excuse: set<string>, w: string,
                   h: seq<Holder>, id: Id, v: string)
    requires w in open && v in open && v != w
    requires HoldersHold(holding, open) && HoldersHold(holding - {id}, open[w := open[w].(holders := h)])
    requires Current(open, res, v) && Good(open, res, holding, excuse, v)
    ensures var open' := open[w := open[w].(holders := h)];
      Current(open', res, v) && Good(open', res, holding - {id}, excuse, v)
  {
    var open' := open[w := open[w].(holders := h)];
    SameOpenSet(open, open');
    OthersFewer(holding, id, open[v].holders);
    assert NamesAt(holding - {id}, open[v].holders) == NamesAt(holding, open[v].holders);
    GoodKept(open, res, holding, open', res, holding - {id}, excuse, v);
  }

  /** Once a derived name is marked as gone, no unmarked path has it for a `<N>`. */
  lemma MarkedClear(groups: map<string, Group>, open: Open, res: set<string>, holding: map<Id, string>,
                    excuse: set<string>, dirty: Dirty, name: string)
    requires GroupsOk(groups, open) && Spelt(open) && HoldersHold(holding, open)
    requires AllGood(open, res, holding, dirty, excuse)
    requires forall v :: v in open && SuffixOf(open[v], name) ==> Marked(open, dirty, v)
    ensures Clear(open, res, holding, dirty, name)
  {
    forall v | v in open && !Marked(open, dirty, v) && name in NamesAt(holding, open[v].holders)
      ensures name == BaseOf(open, res, v)
    {
      if name != BaseOf(open, res, v) {
        HeldSuffix(open, res, holding, excuse, v, name);
      }
    }
  }

  // ----- a reserved name comes or goes -----

  lemma ReservedDepthKept(groups: map<string, Group>, open: Open, nextPath: nat, res: set<string>, res': set<string>,
                          name: string, v: string)
    requires EntriesOk(open, nextPath) && GroupsOk(groups, open) && Spelt(open) && v in open
    requires res - {name} == res' - {name}
    requires !Marked(open, ReservedDirty(groups, name), v)
    ensures Depth(OpenSet(open), res', open[v].names) == Depth(OpenSet(open), res, open[v].names)
    ensures BaseOf(open, res, v) in res <==> BaseOf(open, res, v) in res'
  {
    ReservedIsShared(groups, open, nextPath, name, v);
    BaseNotShared(open, nextPath, res, v);
    DepthKeptOff(OpenSet(open), res, res', open[v].names, name);
  }

  lemma DepthKeptOff(open: set<seq<string>>, res: set<string>, res': set<string>, a: seq<string>, name: string)
    requires a != [] && res - {name} == res' - {name}
    requires name in a ==> SharedIn(open, name)
    requires !SharedIn(open, a[Depth(open, res, a)])
    ensures Depth(open, res', a) == Depth(open, res, a)
    ensures a[Depth(open, res, a)] in res <==> a[Depth(open, res, a)] in res'
  {
    var d := Depth(open, res, a);
    assert forall n :: n != name ==> (n in res <==> n in res - {name}) && (n in res' <==> n in res' - {name});
    assert a[d] != name by { assert a[d] in a; }
    DepthKept(open, res, open, res', a);
  }

  lemma BaseNotShared(open: Open, nextPath: nat, res: set<string>, v: string)
    requires EntriesOk(open, nextPath) && Spelt(open) && v in open
    ensures !SharedIn(OpenSet(open), BaseOf(open, res, v))
  {
    var n := BaseOf(open, res, v);
    if SharedIn(OpenSet(open), n) {
      BaseIsAlone(open, nextPath, res, v);
    }
  }

  /** A name of an unmarked path that a reserved name equals is shared anyway. */
  lemma ReservedIsShared(groups: map<string, Group>, open: Open, nextPath: nat, name: string, v: string)
    requires EntriesOk(open, nextPath) && GroupsOk(groups, open) && Spelt(open) && v in open
    requires !Marked(open, ReservedDirty(groups, name), v)
    ensures name in open[v].names ==> SharedIn(OpenSet(open), name)
  {
    if name in open[v].names && !SharedIn(OpenSet(open), name) {
      SharedIsMany(open, nextPath, name);
      SoleHolder(open, nextPath, name, v);
      ReservedMarked(groups, open, nextPath, name, v);
    }
  }

  /** A holder's name other than the plain one is one of the path's `<N>`. */
  lemma HeldSuffix(open: Open, res: set<string>, holding: map<Id, string>, excuse: set<string>, v: string, name: string)
    requires v in open && HoldersHold(holding, open) && Current(open, res, v) && Good(open, res, holding, excuse, v)
    requires name in NamesAt(holding, open[v].holders) && name != BaseOf(open, res, v)
    ensures SuffixOf(open[v], name)
  {
    assert HolderNaming.Own(BaseOf(open, res, v), name);
    SuffixedCut(BaseOf(open, res, v), name);
  }

  lemma NotHeld(groups: map<string, Group>, open: Open, nextPath: nat, res: set<string>, holding: map<Id, string>,
                excuse: set<string>, name: string, dirty: Dirty, v: string)
    requires EntriesOk(open, nextPath) && GroupsOk(groups, open) && Spelt(open) && HoldersHold(holding, open)
    requires ReservedDirty(groups, name) <= dirty && v in open && !Marked(open, dirty, v)
      && Current(open, res, v) && Good(open, res, holding, excuse, v)
    ensures name in NamesAt(holding, open[v].holders) ==> name == BaseOf(open, res, v)
  {
    if name in NamesAt(holding, open[v].holders) && name != BaseOf(open, res, v) {
      HeldSuffix(open, res, holding, excuse, v, name);
      ReservedMarked(groups, open, nextPath, name, v);
    }
  }

  /** Unmarked paths keep their names when the buffer `id` comes to hold the
      reserved name `name`. */
  lemma ReserveKeeps(groups: map<string, Group>, open: Open, nextPath: nat, res: set<string>, res': set<string>,
                     holding: map<Id, string>, excuse: set<string>, id: Id, name: string, dirty: Dirty, v: string)
    requires EntriesOk(open, nextPath) && GroupsOk(groups, open) && Spelt(open)
    requires HoldersHold(holding, open) && HoldersHold(holding[id := name], open) && id !in holding
    requires res - {name} == res' - {name} && ReservedDirty(groups, name) <= dirty
    requires v in open && !Marked(open, dirty, v) && Current(open, res, v) && Good(open, res, holding, excuse, v)
    ensures Current(open, res', v) && Good(open, res', holding[id := name], excuse, v)
  {
    ReservedDepthKept(groups, open, nextPath, res, res', name, v);
    assert Others(holding[id := name], open[v].holders) == Others(holding, open[v].holders) + {name} by {
      OthersMore(holding, id, name, open[v].holders);
    }
    NotHeld(groups, open, nextPath, res, holding, excuse, name, dirty, v);
    GoodKept(open, res, holding, open, res', holding[id := name], excuse, v);
  }

  /** Unmarked paths keep their names when the buffer `id` gives up the reserved
      name `name`. */
  lemma UnreserveKeeps(groups: map<string, Group>, open: Open, nextPath: nat, res: set<string>, res': set<string>,
                       holding: map<Id, string>, excuse: set<string>, id: Id, name: string, dirty: Dirty, v: string)
    requires EntriesOk(open, nextPath) && GroupsOk(groups, open) && Spelt(open)
    requires HoldersHold(holding, open) && HoldersHold(holding - {id}, open)
    requires res - {name} == res' - {name} && ReservedDirty(groups, name) <= dirty
    requires v in open && !Marked(open, dirty, v) && Current(open, res, v) && Good(open, res, holding, excuse, v)
    ensures Current(open, res', v) && Good(open, res', holding - {id}, excuse, v)
  {
    ReservedDepthKept(groups, open, nextPath, res, res', name, v);
    OthersFewer(holding, id, open[v].holders);
    assert NamesAt(holding - {id}, open[v].holders) == NamesAt(holding, open[v].holders);
    GoodKept(open, res, holding, open, res', holding - {id}, excuse, v);
  }
}

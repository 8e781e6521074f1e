/** Filing and unfiling with the counts of names held and reserved (`file` and
    `unfile` in src/buffer_registry.rs). */
module IndexCounts {
  import opened NameText
  import opened BufferNames
  import opened HolderNaming
  import opened SessionNames
  import opened NameIndex
  import opened IndexSteps
  import opened IndexMarks
  import opened IndexMembers
  import opened IndexFiling

  /** The whole index: the files, how many buffers hold each name, and how many
      not named by a path do. */
  datatype Index = Index(files: Files, held: map<string, nat>, reserved: map<string, nat>)

  /** The names held by the buffers not named by a path. */
  ghost function Explicit(holding: map<Id, string>, member: map<Id, (string, string)>): map<Id, string> {
    map id | id in holding && id !in member :: holding[id]
  }

  ghost predicate CountsOk(ix: Index, holding: map<Id, string>) {
    && Counts(ix.held, holding)
    && Counts(ix.reserved, Explicit(holding, ix.files.member))
    && ix.files.member.Keys <= holding.Keys <= ix.files.place.Keys
  }

  /** The index records the buffers of `holding`, each with the name it is filed
      with, and the paths of `open`. */
  ghost predicate IndexOk(ix: Index, open: Open, holding: map<Id, string>) {
    FilesOk(ix.files, open) && CountsOk(ix, holding)
  }

  lemma IndexHolds(ix: Index, open: Open, holding: map<Id, string>)
    requires IndexOk(ix, open, holding)
    ensures HoldersHold(holding, open)
  {
    HoldersKnown(ix.files, open, holding);
  }

  // ----- what changes -----

  function FileDerived(ix: Index, id: Id, path: Path, names: Listed, name: string): Index
    requires id in ix.files.place
  {
    ix.(files := JoinFiles(ix.files, id, path, names), held := CountUp(ix.held, name))
  }

  function FileExplicit(ix: Index, name: string): Index {
    ix.(held := CountUp(ix.held, name), reserved := CountUp(ix.reserved, name))
  }

  function UnfileDerived(ix: Index, id: Id, name: string): Index {
    ix.(files := LeaveFiles(ix.files, id), held := CountDown(ix.held, name))
  }

  function UnfileExplicit(ix: Index, name: string): Index {
    ix.(held := CountDown(ix.held, name), reserved := CountDown(ix.reserved, name))
  }

  // ----- what is kept -----

  lemma ExplicitJoined(holding: map<Id, string>, member: map<Id, (string, string)>, id: Id, name: string,
                       gw: (string, string))
    requires id !in holding
    ensures Explicit(holding[id := name], member[id := gw]) == Explicit(holding, member)
  {
  }

  lemma ExplicitAdded(holding: map<Id, string>, member: map<Id, (string, string)>, id: Id, name: string)
    requires id !in holding && id !in member
    ensures Explicit(holding[id := name], member) == Explicit(holding, member)[id := name]
    ensures id !in Explicit(holding, member)
  {
  }

  lemma ExplicitLeft(holding: map<Id, string>, member: map<Id, (string, string)>, id: Id)
    requires id in member
    ensures Explicit(holding - {id}, member - {id}) == Explicit(holding, member)
  {
  }

  lemma ExplicitRemoved(holding: map<Id, string>, member: map<Id, (string, string)>, id: Id)
    requires id in holding && id !in member
    ensures Explicit(holding - {id}, member) == Explicit(holding, member) - {id}
    ensures id in Explicit(holding, member) && Explicit(holding, member)[id] == holding[id]
  {
  }

  lemma FileDerivedOk(ix: Index, open: Open, holding: map<Id, string>, id: Id, path: Path, names: Listed, name: string)
    requires IndexOk(ix, open, holding) && id in ix.files.place && id !in holding && Spelling(names)
    ensures IndexOk(FileDerived(ix, id, path, names, name), JoinOpen(ix.files, open, id, path, names),
                    holding[id := name])
  {
    assert CountsOk(FileDerived(ix, id, path, names, name), holding[id := name]) by {
      CountsUp(ix.held, holding, id, name);
      ExplicitJoined(holding, ix.files.member, id, name, (names[0], Last(names)));
    }
    JoinOk(ix.files, open, id, path, names);
  }

  lemma FileExplicitOk(ix: Index, open: Open, holding: map<Id, string>, id: Id, name: string)
    requires IndexOk(ix, open, holding) && id in ix.files.place && id !in holding
    ensures IndexOk(FileExplicit(ix, name), open, holding[id := name])
  {
    ExplicitAdded(holding, ix.files.member, id, name);
    CountsUp(ix.held, holding, id, name);
    CountsUp(ix.reserved, Explicit(holding, ix.files.member), id, name);
  }

  lemma LeaveMember(f: Files, id: Id)
    requires id in f.member
    ensures LeaveFiles(f, id).member == f.member - {id} && LeaveFiles(f, id).place == f.place
  {
  }

  lemma UnfileDerivedOk(ix: Index, open: Open, holding: map<Id, string>, id: Id)
    requires IndexOk(ix, open, holding) && id in ix.files.member
    ensures id in holding && id in ix.files.place && ix.files.member[id].1 in open
    ensures IndexOk(UnfileDerived(ix, id, holding[id]), LeaveOpen(ix.files, open, id), holding - {id})
  {
    assert id in holding;
    assert CountsOk(UnfileDerived(ix, id, holding[id]), holding - {id}) by {
      LeaveMember(ix.files, id);
      CountsDown(ix.held, holding, id);
      ExplicitLeft(holding, ix.files.member, id);
    }
    LeaveOk(ix.files, open, id);
  }

  lemma UnfileExplicitOk(ix: Index, open: Open, holding: map<Id, string>, id: Id)
    requires IndexOk(ix, open, holding) && id in holding && id !in ix.files.member
    ensures IndexOk(UnfileExplicit(ix, holding[id]), open, holding - {id})
  {
    ExplicitRemoved(holding, ix.files.member, id);
    CountsDown(ix.held, holding, id);
    CountsDown(ix.reserved, Explicit(holding, ix.files.member), id);
  }

  /** Filing a buffer by its path: unmarked paths keep their names, but for the
      name the buffer brought. */
  lemma FileDerivedReady(ix: Index, open: Open, holding: map<Id, string>, id: Id, path: Path, names: Listed,
                         name: string, dirty: Dirty, excuse: set<string>)
    requires IndexOk(ix, open, holding) && id in ix.files.place && id !in holding && Spelling(names)
    requires HoldersHold(holding, open) && AllGood(open, ix.reserved.Keys, holding, dirty, excuse)
    ensures var open' := JoinOpen(ix.files, open, id, path, names);
      && HoldersHold(holding[id := name], open')
      && AllGood(open', ix.reserved.Keys, holding[id := name], dirty + JoinDirty(ix.files, names), excuse + {name})
  {
    FileDerivedOk(ix, open, holding, id, path, names, name);
    IndexHolds(FileDerived(ix, id, path, names, name), JoinOpen(ix.files, open, id, path, names), holding[id := name]);
    JoinReady(ix.files, open, id, path, names, ix.reserved.Keys, holding, name, dirty, excuse);
  }

  lemma FileExplicitReady(ix: Index, open: Open, holding: map<Id, string>, id: Id, name: string, dirty: Dirty,
                          excuse: set<string>)
    requires IndexOk(ix, open, holding) && id in ix.files.place && id !in holding
    requires HoldersHold(holding, open) && AllGood(open, ix.reserved.Keys, holding, dirty, excuse)
    ensures HoldersHold(holding[id := name], open)
    ensures AllGood(open, FileExplicit(ix, name).reserved.Keys, holding[id := name],
                    dirty + ReservedDirty(ix.files.groups, name), excuse)
  {
    var dirty', res' := dirty + ReservedDirty(ix.files.groups, name), FileExplicit(ix, name).reserved.Keys;
    assert ix.reserved.Keys - {name} == res' - {name};
    assert HoldersHold(holding[id := name], open) by { HoldersHoldMore(holding, open, id, name); }
    ReserveReady(ix.files.groups, open, ix.files.nextPath, ix.reserved.Keys, res', holding, excuse, id, name, dirty,
                 dirty');
  }

  lemma HoldersHoldMore(holding: map<Id, string>, open: Open, id: Id, name: string)
    requires HoldersHold(holding, open)
    ensures HoldersHold(holding[id := name], open)
  {
  }

  lemma ReserveReady(groups: map<string, Group>, open: Open, nextPath: nat, res: set<string>, res': set<string>,
                     holding: map<Id, string>, excuse: set<string>, id: Id, name: string, dirty: Dirty, dirty': Dirty)
    requires EntriesOk(open, nextPath) && GroupsOk(groups, open) && Spelt(open)
    requires HoldersHold(holding, open) && HoldersHold(holding[id := name], open) && id !in holding
    requires res - {name} == res' - {name} && dirty' == dirty + ReservedDirty(groups, name)
    requires AllGood(open, res, holding, dirty, excuse)
    ensures AllGood(open, res', holding[id := name], dirty', excuse)
  {
    forall v | v in open && !Marked(open, dirty', v)
      ensures Current(open, res', v) && Good(open, res', holding[id := name], excuse, v)
    {
      assert !Marked(open, dirty, v);
      ReserveKeeps(groups, open, nextPath, res, res', holding, excuse, id, name, dirty', v);
    }
  }

  /** Unfiling a buffer named by a path: unmarked paths keep their names, and none
      has the buffer's name for a `<N>`. */
  lemma UnfileDerivedReady(ix: Index, open: Open, holding: map<Id, string>, id: Id, dirty: Dirty, excuse: set<string>)
    requires IndexOk(ix, open, holding) && id in ix.files.member
    requires HoldersHold(holding, open) && AllGood(open, ix.reserved.Keys, holding, dirty, excuse)
    requires id in holding && id in ix.files.place && ix.files.member[id].1 in open
    ensures var open', ix' := LeaveOpen(ix.files, open, id), UnfileDerived(ix, id, holding[id]);
      var dirty' := dirty + LeaveDirty(ix.files, id) + DerivedDirty(ix'.files.groups, holding[id]);
      && HoldersHold(holding - {id}, open')
      && AllGood(open', ix.reserved.Keys, holding - {id}, dirty', excuse)
      && Clear(open', ix.reserved.Keys, holding - {id}, dirty', holding[id])
  {
    var open', ix' := LeaveOpen(ix.files, open, id), UnfileDerived(ix, id, holding[id]);
    UnfileDerivedOk(ix, open, holding, id);
    IndexHolds(ix', open', holding - {id});
    LeaveReady(ix.files, open, id, ix.reserved.Keys, holding, dirty, excuse);
    var dirty' := dirty + LeaveDirty(ix.files, id) + DerivedDirty(ix'.files.groups, holding[id]);
    ClearOfDerived(ix', open', holding - {id}, dirty', excuse, holding[id]);
  }

  lemma ClearOfDerived(ix: Index, open: Open, holding: map<Id, string>, dirty: Dirty, excuse: set<string>, name: string)
    requires IndexOk(ix, open, holding) && HoldersHold(holding, open)
      && AllGood(open, ix.reserved.Keys, holding, dirty, excuse)
    requires DerivedDirty(ix.files.groups, name) <= dirty
    ensures Clear(open, ix.reserved.Keys, holding, dirty, name)
  {
    forall v | v in open && SuffixOf(open[v], name) ensures Marked(open, dirty, v) {
      DerivedMarked(ix.files.groups, open, name, v);
    }
    MarkedClear(ix.files.groups, open, ix.reserved.Keys, holding, excuse, dirty, name);
  }

  lemma UnfileExplicitReady(ix: Index, open: Open, holding: map<Id, string>, id: Id, dirty: Dirty, excuse: set<string>)
    requires IndexOk(ix, open, holding) && id in holding && id !in ix.files.member
    requires HoldersHold(holding, open) && AllGood(open, ix.reserved.Keys, holding, dirty, excuse)
    ensures var ix', dirty' := UnfileExplicit(ix, holding[id]), dirty + ReservedDirty(ix.files.groups, holding[id]);
      && HoldersHold(holding - {id}, open)
      && AllGood(open, ix'.reserved.Keys, holding - {id}, dirty', excuse)
      && Clear(open, ix'.reserved.Keys, holding - {id}, dirty', holding[id])
  {
    var ix', dirty' := UnfileExplicit(ix, holding[id]), dirty + ReservedDirty(ix.files.groups, holding[id]);
    UnfileExplicitOk(ix, open, holding, id);
    IndexHolds(ix', open, holding - {id});
    assert ix.reserved.Keys - {holding[id]} == ix'.reserved.Keys - {holding[id]};
    forall v | v in open && !Marked(open, dirty', v)
      ensures Current(open, ix'.reserved.Keys, v) && Good(open, ix'.reserved.Keys, holding - {id}, excuse, v)
    {
      UnreserveKeeps(ix.files.groups, open, ix.files.nextPath, ix.reserved.Keys, ix'.reserved.Keys, holding, excuse, id,
                     holding[id], dirty', v);
    }
    forall v | v in open && SuffixOf(open[v], holding[id]) ensures Marked(open, dirty', v) {
      ReservedMarked(ix.files.groups, open, ix.files.nextPath, holding[id], v);
    }
    MarkedClear(ix.files.groups, open, ix'.reserved.Keys, holding - {id}, excuse, dirty', holding[id]);
  }
}

/** Filing a buffer and unfiling it within one event (`file` and `unfile` in
    src/buffer_registry.rs): the loops, and what an event keeps between them. */
module EventFiling {
  import opened Options
  import opened NameText
  import opened BufferNames
  import opened HolderNaming
  import opened SessionNames
  import opened NameIndex
  import opened IndexSteps
  import opened IndexMarks
  import opened IndexMembers
  import opened IndexFiling
  import opened IndexCounts
  import opened RegistrySteps
  import opened SessionAgreement

  // ----- what filing and unfiling compute -----

  function FiledIndex(ix: Index, id: Id, buf: Buffer): Index
    requires id in ix.files.place
  {
    match buf.Origin()
    case Some(path) => FileDerived(ix, id, path, Names(path), buf.name)
    case None => FileExplicit(ix, buf.name)
  }

  function FilingDirty(ix: Index, buf: Buffer): Dirty {
    match buf.Origin()
    case Some(path) => JoinDirty(ix.files, Names(path))
    case None => ReservedDirty(ix.files.groups, buf.name)
  }

  /** File a buffer, which holds its name: under its path if its name derives from
      one, else as a reserved name. */
  method File(ix: Index, id: Id, buf: Buffer, dirty: Dirty) returns (ix': Index, dirty': Dirty)
    requires id in ix.files.place
    ensures ix' == FiledIndex(ix, id, buf) && dirty' == dirty + FilingDirty(ix, buf)
  {
    ix' := ix.(held := NameIndex.CountUp(ix.held, buf.name));
    match buf.Origin()
    case Some(path) =>
      NamesSpell(path);
      var files;
      files, dirty' := RegistrySteps.Join(ix.files, id, path, Names(path), dirty);
      ix' := ix'.(files := files);
    case None =>
      ix' := ix'.(reserved := NameIndex.CountUp(ix.reserved, buf.name));
      dirty' := ReservedChanged(ix.files.groups, buf.name, dirty);
  }

  function UnfiledIndex(ix: Index, id: Id, name: string): Index {
    if id in ix.files.member then UnfileDerived(ix, id, name) else UnfileExplicit(ix, name)
  }

  function UnfilingDirty(ix: Index, id: Id, name: string): Dirty {
    if id in ix.files.member then LeaveDirty(ix.files, id) + DerivedDirty(LeaveFiles(ix.files, id).groups, name)
    else ReservedDirty(ix.files.groups, name)
  }

  /** Unfile a buffer, which held `name`. */
  method Unfile(ix: Index, id: Id, name: string, dirty: Dirty, ghost open: Open) returns (ix': Index, dirty': Dirty)
    requires FilesOk(ix.files, open)
    ensures ix' == UnfiledIndex(ix, id, name) && dirty' == dirty + UnfilingDirty(ix, id, name)
  {
    ix' := ix.(held := CountDown(ix.held, name));
    if id in ix.files.member {
      var files;
      files, dirty' := Leave(ix.files, id, dirty, open);
      ix' := ix'.(files := files);
      dirty' := DerivedChanged(files.groups, name, dirty');
    } else {
      ix' := ix'.(reserved := CountDown(ix.reserved, name));
      dirty' := ReservedChanged(ix.files.groups, name, dirty);
    }
  }

  // ----- what an event keeps -----

  /** Each path's names are its own. */
  ghost predicate PathsNamed(open: Open) {
    forall w :: w in open ==> open[w].names == Names(open[w].path)
  }

  /** The index within an event: it records the buffers of `holding`, and every path
      not marked needs no renaming but for the names in `excuse`. */
  ghost predicate Mid(ix: Index, open: Open, holding: map<Id, string>, dirty: Dirty, excuse: set<string>) {
    && IndexOk(ix, open, holding) && HoldersHold(holding, open) && PathsNamed(open)
    && AllGood(open, ix.reserved.Keys, holding, dirty, excuse)
  }

  /** Buffers other than `id` stay filed as they are. */
  ghost predicate OthersFiled(id: Id, member: map<Id, (string, string)>, open: Open, member': map<Id, (string, string)>,
                              open': Open) {
    forall other, buf: Buffer ::
      other != id && FiledRight(buf, other, member, open) ==> FiledRight(buf, other, member', open')
  }

  lemma OthersStay(id: Id, member: map<Id, (string, string)>, open: Open, member': map<Id, (string, string)>,
                   open': Open, place: map<Id, nat>)
    requires MembersHold(member', place, open')
    requires forall other ::
      other != id ==> (other in member <==> other in member') && (other in member ==> member'[other] == member[other])
    requires forall w :: w in open && w in open' ==> open'[w].names == open[w].names
    ensures OthersFiled(id, member, open, member', open')
  {
  }

  ghost function FiledOpen(ix: Index, open: Open, id: Id, buf: Buffer): Open
    requires id in ix.files.place
  {
    match buf.Origin()
    case Some(path) => JoinOpen(ix.files, open, id, path, Names(path))
    case None => open
  }

  /** The name a buffer filed under a path brings may trouble others. */
  function Brought(buf: Buffer): set<string> {
    if buf.Origin().Some? then {buf.name} else {}
  }

  lemma JoinNames(f: Files, open: Open, id: Id, path: Path)
    requires id in f.place
    ensures var open' := JoinOpen(f, open, id, path, Names(path));
      && (forall w :: w in open ==> w in open' && open'[w].names == open[w].names)
      && (PathsNamed(open) ==> PathsNamed(open'))
  {
  }

  lemma FiledDerivedKeeps(ix: Index, open: Open, holding: map<Id, string>, dirty: Dirty, excuse: set<string>, id: Id,
                          path: Path, name: string)
    requires Mid(ix, open, holding, dirty, excuse) && id in ix.files.place && id !in holding
    ensures Mid(FileDerived(ix, id, path, Names(path), name), JoinOpen(ix.files, open, id, path, Names(path)),
                holding[id := name],
                dirty + JoinDirty(ix.files, Names(path)), excuse + {name})
  {
    NamesSpell(path);
    var ix', open' := FileDerived(ix, id, path, Names(path), name), JoinOpen(ix.files, open, id, path, Names(path));
    assert IndexOk(ix', open', holding[id := name]) by {
      FileDerivedOk(ix, open, holding, id, path, Names(path), name);
    }
    assert PathsNamed(open') by { JoinNames(ix.files, open, id, path); }
    FileDerivedReady(ix, open, holding, id, path, Names(path), name, dirty, excuse);
  }

  lemma FiledExplicitKeeps(ix: Index, open: Open, holding: map<Id, string>, dirty: Dirty, excuse: set<string>, id: Id,
                           name: string)
    requires Mid(ix, open, holding, dirty, excuse) && id in ix.files.place && id !in holding
    ensures Mid(FileExplicit(ix, name), open, holding[id := name], dirty + ReservedDirty(ix.files.groups, name), excuse)
  {
    assert IndexOk(FileExplicit(ix, name), open, holding[id := name]) by {
      FileExplicitOk(ix, open, holding, id, name);
    }
    FileExplicitReady(ix, open, holding, id, name, dirty, excuse);
  }

  /** Filing keeps the index, and leaves every unmarked path its name but for the
      one the buffer brings. */
  lemma FiledKeeps(ix: Index, open: Open, holding: map<Id, string>, dirty: Dirty, excuse: set<string>, id: Id,
                   buf: Buffer)
    requires Mid(ix, open, holding, dirty, excuse) && id in ix.files.place && id !in holding
    ensures Mid(FiledIndex(ix, id, buf), FiledOpen(ix, open, id, buf), holding[id := buf.name],
                dirty + FilingDirty(ix, buf), excuse + Brought(buf))
  {
    match buf.Origin()
    case Some(path) =>
      FiledDerivedKeeps(ix, open, holding, dirty, excuse, id, path, buf.name);
    case None =>
      FiledExplicitKeeps(ix, open, holding, dirty, excuse, id, buf.name);
      assert excuse + Brought(buf) == excuse;
  }

  lemma JoinedRight(f: Files, open: Open, id: Id, path: Path)
    requires FilesOk(f, open) && id in f.place && Spelling(Names(path))
    ensures var names, open' := Names(path), JoinOpen(f, open, id, path, Names(path));
      && Last(names) in open' && open'[Last(names)].names == names
      && Marked(open', JoinDirty(f, names), Last(names))
      && JoinFiles(f, id, path, names).member == f.member[id := (names[0], Last(names))]
      && JoinFiles(f, id, path, names).place == f.place
  {
    JoinKey(f.groups, open, f.nextPath, Names(path));
  }

  /** The filed buffer is under its path, which is marked, and others where they were. */
  lemma FiledStays(ix: Index, open: Open, id: Id, buf: Buffer)
    requires FilesOk(ix.files, open) && id in ix.files.place
    requires buf.Origin().None? ==> id !in ix.files.member
    requires MembersHold(FiledIndex(ix, id, buf).files.member, ix.files.place, FiledOpen(ix, open, id, buf))
    ensures FiledRight(buf, id, FiledIndex(ix, id, buf).files.member, FiledOpen(ix, open, id, buf))
    ensures OthersFiled(id, ix.files.member, open, FiledIndex(ix, id, buf).files.member, FiledOpen(ix, open, id, buf))
    ensures FiledIndex(ix, id, buf).files.place == ix.files.place
    ensures buf.Origin().Some? ==>
      var w := Last(Names(buf.Origin().value));
      && w in FiledOpen(ix, open, id, buf) && Marked(FiledOpen(ix, open, id, buf), FilingDirty(ix, buf), w)
      && id in FiledIndex(ix, id, buf).files.member && FiledIndex(ix, id, buf).files.member[id].1 == w
  {
    match buf.Origin()
    case Some(path) =>
      NamesSpell(path);
      JoinedRight(ix.files, open, id, path);
      assert OthersFiled(id, ix.files.member, open, FiledIndex(ix, id, buf).files.member,
                         FiledOpen(ix, open, id, buf)) by {
        JoinedStays(ix.files, open, id, path);
      }
    case None =>
  }

  lemma JoinedStays(f: Files, open: Open, id: Id, path: Path)
    requires id in f.place
    requires MembersHold(JoinFiles(f, id, path, Names(path)).member, f.place, JoinOpen(f, open, id, path, Names(path)))
    ensures OthersFiled(id, f.member, open, JoinFiles(f, id, path, Names(path)).member,
                        JoinOpen(f, open, id, path, Names(path)))
  {
    JoinNames(f, open, id, path);
    OthersStay(id, f.member, open, JoinFiles(f, id, path, Names(path)).member, JoinOpen(f, open, id, path, Names(path)),
               f.place);
  }

  /** A name no unmarked path had for a `<N>` still troubles none once its buffer
      is filed under another path. */
  lemma FiledClear(ix: Index, open: Open, holding: map<Id, string>, dirty: Dirty, excuse: set<string>, id: Id,
                   buf: Buffer)
    requires Mid(ix, open, holding, dirty, excuse) && id in ix.files.place && id !in holding
    requires Clear(open, ix.reserved.Keys, holding, dirty, buf.name)
    ensures Mid(FiledIndex(ix, id, buf), FiledOpen(ix, open, id, buf), holding[id := buf.name],
                dirty + FilingDirty(ix, buf), excuse)
  {
    FiledKeeps(ix, open, holding, dirty, excuse, id, buf);
    if buf.Origin().Some? {
      var ix', open', holding', dirty' := FiledIndex(ix, id, buf), FiledOpen(ix, open, id, buf),
        holding[id := buf.name], dirty + FilingDirty(ix, buf);
      FiledStays(ix, open, id, buf);
      ClearJoined(ix, open, holding, dirty, excuse, id, buf, open', holding', dirty');
      ClearIsGood(open', ix'.reserved.Keys, holding', dirty', excuse, buf.name);
    }
  }

  lemma ClearJoined(ix: Index, open: Open, holding: map<Id, string>, dirty: Dirty, excuse: set<string>, id: Id,
                    buf: Buffer,
                    open': Open, holding': map<Id, string>, dirty': Dirty)
    requires HoldersHold(holding, open) && AllGood(open, ix.reserved.Keys, holding, dirty, excuse) && id !in holding
      && id in ix.files.place
    requires Clear(open, ix.reserved.Keys, holding, dirty, buf.name) && buf.Origin().Some?
    requires open' == JoinOpen(ix.files, open, id, buf.Origin().value, Names(buf.Origin().value)) && dirty <= dirty'
    requires holding' == holding[id := buf.name] && HoldersHold(holding', open')
    requires Marked(open', dirty', Last(Names(buf.Origin().value)))
    requires AllGood(open', ix.reserved.Keys, holding', dirty', excuse + {buf.name})
    ensures Clear(open', ix.reserved.Keys, holding', dirty', buf.name)
  {
    forall v | v in open' && !Marked(open', dirty', v) && buf.name in NamesAt(holding', open'[v].holders)
      ensures buf.name == BaseOf(open', ix.reserved.Keys, v)
    {
      assert v in open && open'[v] == open[v] && !Marked(open, dirty, v);
      assert NamesAt(holding', open[v].holders) == NamesAt(holding, open[v].holders);
      assert Current(open, ix.reserved.Keys, v) && Current(open', ix.reserved.Keys, v);
    }
  }

  ghost function UnfiledOpen(ix: Index, open: Open, id: Id): Open {
    if id in ix.files.member && id in ix.files.place && ix.files.member[id].1 in open then LeaveOpen(ix.files, open, id)
      else open
  }

  lemma LeaveNames(f: Files, open: Open, id: Id)
    requires id in f.member && id in f.place && f.member[id].1 in open
    ensures var open' := LeaveOpen(f, open, id);
      && (forall w :: w in open' ==> w in open && open'[w].names == open[w].names)
      && (PathsNamed(open) ==> PathsNamed(open'))
  {
  }

  lemma UnfiledDerivedKeeps(ix: Index, open: Open, holding: map<Id, string>, dirty: Dirty, excuse: set<string>, id: Id)
    requires Mid(ix, open, holding, dirty, excuse) && id in ix.files.member
    ensures id in holding && id in ix.files.place && ix.files.member[id].1 in open
    ensures var ix', dirty' := UnfileDerived(ix, id, holding[id]),
        dirty + LeaveDirty(ix.files, id) + DerivedDirty(LeaveFiles(ix.files, id).groups, holding[id]);
      && Mid(ix', LeaveOpen(ix.files, open, id), holding - {id}, dirty', excuse)
      && Clear(LeaveOpen(ix.files, open, id), ix.reserved.Keys, holding - {id}, dirty', holding[id])
  {
    var ix' := UnfileDerived(ix, id, holding[id]);
    UnfileDerivedOk(ix, open, holding, id);
    assert PathsNamed(LeaveOpen(ix.files, open, id)) by { LeaveNames(ix.files, open, id); }
    UnfileDerivedReady(ix, open, holding, id, dirty, excuse);
  }

  lemma UnfiledExplicitKeeps(ix: Index, open: Open, holding: map<Id, string>, dirty: Dirty, excuse: set<string>, id: Id)
    requires Mid(ix, open, holding, dirty, excuse) && id in holding && id !in ix.files.member
    ensures var ix', dirty' := UnfileExplicit(ix, holding[id]), dirty + ReservedDirty(ix.files.groups, holding[id]);
      && Mid(ix', open, holding - {id}, dirty', excuse)
      && Clear(open, ix'.reserved.Keys, holding - {id}, dirty', holding[id])
  {
    UnfileExplicitOk(ix, open, holding, id);
    UnfileExplicitReady(ix, open, holding, id, dirty, excuse);
  }

  lemma UnfilingParts(ix: Index, id: Id, name: string, dirty: Dirty)
    requires id in ix.files.member
    ensures dirty + UnfilingDirty(ix, id, name) == dirty + LeaveDirty(ix.files,
                                                                      id) + DerivedDirty(LeaveFiles(ix.files,
                                                                          id).groups, name)
  {
  }

  /** Unfiling keeps the index, leaves every unmarked path its name, and leaves none
      the buffer's name for a `<N>`. */
  lemma UnfiledKeeps(ix: Index, open: Open, holding: map<Id, string>, dirty: Dirty, excuse: set<string>, id: Id)
    requires Mid(ix, open, holding, dirty, excuse) && id in holding
    ensures var ix', dirty' := UnfiledIndex(ix, id, holding[id]), dirty + UnfilingDirty(ix, id, holding[id]);
      && Mid(ix', UnfiledOpen(ix, open, id), holding - {id}, dirty', excuse)
      && Clear(UnfiledOpen(ix, open, id), ix'.reserved.Keys, holding - {id}, dirty', holding[id])
  {
    if id in ix.files.member {
      UnfilingParts(ix, id, holding[id], dirty);
      UnfiledDerivedKeeps(ix, open, holding, dirty, excuse, id);
    } else {
      UnfiledExplicitKeeps(ix, open, holding, dirty, excuse, id);
    }
  }

  lemma LeftStays(f: Files, open: Open, id: Id)
    requires id in f.member && id in f.place && f.member[id].1 in open
    requires MembersHold(LeaveFiles(f, id).member, f.place, LeaveOpen(f, open, id))
    ensures OthersFiled(id, f.member, open, LeaveFiles(f, id).member, LeaveOpen(f, open, id))
  {
    LeaveMember(f, id);
    LeaveNames(f, open, id);
    OthersStay(id, f.member, open, LeaveFiles(f, id).member, LeaveOpen(f, open, id), f.place);
  }

  lemma UnfiledStays(ix: Index, open: Open, id: Id, name: string)
    requires MembersHold(ix.files.member, ix.files.place, open)
    requires MembersHold(UnfiledIndex(ix, id, name).files.member, ix.files.place, UnfiledOpen(ix, open, id))
    ensures OthersFiled(id, ix.files.member, open, UnfiledIndex(ix, id, name).files.member, UnfiledOpen(ix, open, id))
    ensures UnfiledIndex(ix, id, name).files.place == ix.files.place
  {
    if id in ix.files.member {
      assert LeaveFiles(ix.files, id).place == ix.files.place by { LeaveMember(ix.files, id); }
      LeftStays(ix.files, open, id);
    }
  }
}

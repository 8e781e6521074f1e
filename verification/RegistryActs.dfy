/** The registry's events on its values: filing, unfiling and settling in the order
    the source does them (src/buffer_registry.rs). */
module RegistryActs {
  import opened Options
  import opened Sealing
  import opened NameText
  import opened BufferNames
  import opened HolderNaming
  import opened SessionNames
  import opened NameIndex
  import opened IndexSteps
  import opened IndexMarks
  import opened IndexFiling
  import opened IndexCounts
  import opened RegistrySteps
  import opened SettleLoop
  import opened SettleEnds
  import opened SettleClashes
  import opened SessionAgreement
  import opened EventFiling
  import opened RegistryEvents
  import opened RegistryOrder
  import opened RegistryRuns

  // ----- what an event carries along -----

  ghost predicate Going(ix: Index, buffers: map<Id, Buffer>, open: Open, dirty: Dirty, excuse: set<string>,
                        stale: set<Id>) {
    forall k: nat {:trigger Look(k)} :: Look(k) ==> Filings(ix, buffers, open, dirty, excuse, stale)
  }

  /** The same while the buffer `id` is unfiled, and no unmarked path has `name` for
      a `<N>`. */
  ghost predicate GoingBut(ix: Index, buffers: map<Id, Buffer>, open: Open, dirty: Dirty, excuse: set<string>,
                           stale: set<Id>, id: Id, name: Option<string>) {
    forall k: nat {:trigger Look(k)} :: Look(k) ==>
      && FilingsBut(ix, buffers, open, dirty, excuse, stale, id)
      && (name.Some? ==> Clear(open, ix.reserved.Keys, NamesIn(buffers - {id}), dirty, name.value))
  }

  lemma GoingFiles(ix: Index, buffers: map<Id, Buffer>, open: Open, dirty: Dirty, excuse: set<string>, stale: set<Id>)
    requires Going(ix, buffers, open, dirty, excuse, stale)
    ensures FilesOk(ix.files, open)
  {
    assert Look(0);
  }

  /** The names that clash among the other buffers. */
  ghost function Rest(ix: Index, buffers: map<Id, Buffer>, id: Id): set<string> {
    ClashNames(NamesIn(buffers - {id}), ix.files.member - {id})
  }

  method UnfileOne(ix: Index, buffers: map<Id, Buffer>, id: Id, dirty: Dirty, ghost open: Open,
                   ghost excuse: set<string>, ghost stale: set<Id>)
    returns (ix': Index, dirty': Dirty, ghost open': Open)
    requires Going(ix, buffers, open, dirty, excuse, stale) && id in buffers
    ensures GoingBut(ix', buffers, open', dirty', excuse * Rest(ix, buffers, id), stale, id, Some(buffers[id].name))
      && ix'.files.place == ix.files.place
  {
    GoingFiles(ix, buffers, open, dirty, excuse, stale);
    ix', dirty' := Unfile(ix, id, buffers[id].name, dirty, open);
    open' := UnfiledOpen(ix, open, id);
    UnfiledGoing(ix, buffers, open, dirty, excuse, stale, id);
  }

  lemma UnfiledGoing(ix: Index, buffers: map<Id, Buffer>, open: Open, dirty: Dirty, excuse: set<string>, stale: set<Id>,
                     id: Id)
    requires Going(ix, buffers, open, dirty, excuse, stale) && id in buffers
    ensures var ix', open', dirty' := UnfiledIndex(ix, id, buffers[id].name), UnfiledOpen(ix, open, id),
      dirty + UnfilingDirty(ix, id, buffers[id].name);
      && GoingBut(ix', buffers, open', dirty', excuse * Rest(ix, buffers, id), stale, id, Some(buffers[id].name))
      && ix'.files.place == ix.files.place
  {
    assert Look(0);
    UnfileStep(ix, buffers, open, dirty, excuse, stale, id);
    var ix', open', dirty' := UnfiledIndex(ix, id, buffers[id].name), UnfiledOpen(ix, open, id),
      dirty + UnfilingDirty(ix, id, buffers[id].name);
    UnfiledMember(ix, id, buffers[id].name);
    UnfiledTight(ix', buffers, open', dirty', excuse, stale, id);
  }

  lemma UnfiledMember(ix: Index, id: Id, name: string)
    ensures UnfiledIndex(ix, id, name).files.member == ix.files.member - {id}
  {
    if id in ix.files.member {
      LeaveMember(ix.files, id);
    }
  }

  lemma OthersStand(buffers: map<Id, Buffer>, id: Id, buf: Buffer)
    ensures buffers[id := buf] - {id} == buffers - {id}
    ensures forall x :: x in buffers[id := buf] && x != id ==> x in buffers && buffers[id := buf][x] == buffers[x]
  {
  }

  /** The same buffers but for the unfiled one. */
  lemma GoingButOther(ix: Index, buffers: map<Id, Buffer>, open: Open, dirty: Dirty, excuse: set<string>,
                      stale: set<Id>, id: Id, name: Option<string>, buf: Buffer)
    requires GoingBut(ix, buffers, open, dirty, excuse, stale, id, name)
    ensures GoingBut(ix, buffers[id := buf], open, dirty, excuse, stale, id, name)
  {
    OthersStand(buffers, id, buf);
    assert Look(0);
  }

  lemma FiledGoing(ix: Index, buffers: map<Id, Buffer>, open: Open, dirty: Dirty, excuse: set<string>, stale: set<Id>,
                   id: Id, name: Option<string>)
    requires GoingBut(ix, buffers, open, dirty, excuse, stale, id, name) && id in buffers && id in ix.files.place
    ensures var ix', open', dirty' := FiledIndex(ix, id, buffers[id]), FiledOpen(ix, open, id, buffers[id]),
      dirty + FilingDirty(ix, buffers[id]);
      && Going(ix', buffers, open', dirty', if name == Some(buffers[id].name) then excuse
               else excuse + Brought(buffers[id]), stale - {id})
      && ix'.files.place == ix.files.place
  {
    assert Look(0);
    if name == Some(buffers[id].name) {
      FileStepClear(ix, buffers, open, dirty, excuse, stale, id);
    } else {
      FileStep(ix, buffers, open, dirty, excuse, stale, id);
    }
  }

  lemma GoingPlaces(ix: Index, buffers: map<Id, Buffer>, open: Open, dirty: Dirty, excuse: set<string>, stale: set<Id>)
    requires Going(ix, buffers, open, dirty, excuse, stale)
    ensures buffers.Keys <= ix.files.place.Keys
  {
    assert Look(0);
    assert NamesIn(buffers).Keys == buffers.Keys;
  }

  /** Unfile a buffer and file it under the path it has now. */
  method Refile(ix: Index, buffers: map<Id, Buffer>, id: Id, dirty: Dirty, ghost open: Open, ghost excuse: set<string>,
                ghost stale: set<Id>)
    returns (ix': Index, dirty': Dirty, ghost open': Open)
    requires Going(ix, buffers, open, dirty, excuse, stale) && id in buffers
    ensures Going(ix', buffers, open', dirty', excuse * Rest(ix, buffers, id), stale - {id})
      && ix'.files.place == ix.files.place
  {
    GoingPlaces(ix, buffers, open, dirty, excuse, stale);
    ix', dirty', open' := UnfileOne(ix, buffers, id, dirty, open, excuse, stale);
    FiledGoing(ix', buffers, open', dirty', excuse * Rest(ix, buffers, id), stale, id, Some(buffers[id].name));
    open' := FiledOpen(ix', open', id, buffers[id]);
    ix', dirty' := File(ix', id, buffers[id], dirty');
  }

  // ----- refresh_names -----

  /** The path a buffer is filed under. */
  function FiledPath(ix: Index, id: Id): Option<Path> {
    if id !in ix.files.member then None
    else
      var (g, w) := ix.files.member[id];
      if g in ix.files.groups && w in ix.files.groups[g].paths then Some(ix.files.groups[g].paths[w].path) else None
  }

  lemma UnchangedRight(ix: Index, buffers: map<Id, Buffer>, open: Open, dirty: Dirty, excuse: set<string>,
                       stale: set<Id>, id: Id)
    requires Going(ix, buffers, open, dirty, excuse, stale) && id in buffers
      && FiledPath(ix, id) == buffers[id].Origin()
    ensures Going(ix, buffers, open, dirty, excuse, stale - {id})
  {
    assert Look(0);
    if id in ix.files.member {
      PathIsOpen(ix.files.groups, open, ix.files.member[id].0, ix.files.member[id].1);
    }
    RightAlso(buffers, stale, id, ix.files.member, open);
  }

  predicate Moved(ix: Index, buffers: map<Id, Buffer>, id: Id) {
    id in buffers && FiledPath(ix, id) != buffers[id].Origin()
  }

  /** Refile each of `ids` whose path is not the one it is filed under. */
  method RefileAll(ix: Index, buffers: map<Id, Buffer>, ids: seq<Id>, ghost open: Open, ghost excuse: set<string>,
                   ghost stale: set<Id>)
    returns (ix': Index, dirty: Dirty, ghost open': Open, ghost excuse': set<string>)
    requires Going(ix, buffers, open, {}, excuse, stale) && stale <= buffers.Keys && forall id ::
      id in stale ==> id in ids
    ensures Going(ix', buffers, open', dirty, excuse', {}) && ix'.files.place == ix.files.place
    ensures excuse' <= excuse && (ids != [] && Moved(ix, buffers, ids[0]) ==> excuse' <= Rest(ix, buffers, ids[0]))
  {
    ix', dirty, open', excuse' := ix, {}, open, excuse;
    ghost var left := stale;
    for i := 0 to |ids|
      invariant Going(ix', buffers, open', dirty, excuse', left) && ix'.files.place == ix.files.place
      invariant left <= stale && forall id :: id in left ==> id !in ids[..i]
      invariant excuse' <= excuse && (i == 0 ==> ix' == ix)
      invariant i > 0 && Moved(ix, buffers, ids[0]) ==> excuse' <= Rest(ix, buffers, ids[0])
    {
      var id := ids[i];
      if id in buffers {
        if FiledPath(ix', id) == buffers[id].Origin() {
          UnchangedRight(ix', buffers, open', dirty, excuse', left, id);
        } else {
          ghost var rest := Rest(ix', buffers, id);
          ix', dirty, open' := Refile(ix', buffers, id, dirty, open', excuse', left);
          excuse' := excuse' * rest;
        }
        left := left - {id};
      }
      assert ids[..i + 1] == ids[..i] + [id];
    }
    assert ids[..|ids|] == ids;
    assert left == {};
  }

  // ----- events that keep the order -----

  /** The names that clash as the buffers are filed. */
  ghost function FiledClashes(r: Registry): set<string> {
    ClashNames(NamesIn(r.buffers), r.names.files.member)
  }

  lemma SoundGoes(r: Registry, open: Open, stale: set<Id>)
    requires Sound(r, open, stale)
    ensures Going(r.names, r.buffers, open, {}, FiledClashes(r), stale) && stale <= r.buffers.Keys
    ensures OrderOk(r.order, r.buffers, r.names.files.place, r.nextPlace)
  {
    assert Look(0);
  }

  /** But for the buffer that is stale, those are the names that clash. */
  lemma SoundRest(r: Registry, open: Open, stale: set<Id>, id: Id)
    requires Sound(r, open, stale) && stale <= {id}
    ensures Rest(r.names, r.buffers, id) == Clashes(r.buffers - {id})
    ensures stale == {} ==> FiledClashes(r) == Clashes(r.buffers)
  {
    assert Look(0);
    ClashesLess(r.buffers, r.names.files.member, open, id);
    if stale == {} {
      ClashesAre(r.buffers, r.names.files.member, open);
    }
  }

  lemma GoingPends(r: Registry, open: Open, dirty: Dirty, excuse: set<string>)
    requires Going(r.names, r.buffers, open, dirty, excuse, {})
      && OrderOk(r.order, r.buffers, r.names.files.place, r.nextPlace)
    ensures Pending(r, open, dirty, excuse)
  {
    assert Look(0);
  }

  method ConcludePlain(r: Registry, dirty: Dirty, ghost open: Open, ghost excuse: set<string>)
    returns (r': Registry, ghost open': Open)
    requires Going(r.names, r.buffers, open, dirty, excuse, {})
      && OrderOk(r.order, r.buffers, r.names.files.place, r.nextPlace)
    ensures Sound(r', open', {}) && r'.order == r.order && Concludes(r.order, r.buffers, excuse, r'.buffers)
  {
    GoingPends(r, open, dirty, excuse);
    r', open' := Conclude(r, dirty, open, excuse);
  }

  /** Rename what a change to the paths of `ids` can move. */
  method Refresh(r: Registry, ids: seq<Id>, ghost open: Open, ghost stale: set<Id>)
    returns (r': Registry, ghost open': Open, ghost excuse: set<string>)
    requires Sound(r, open, stale) && forall id :: id in stale ==> id in ids
    ensures Sound(r', open', {}) && r'.order == r.order && Concludes(r.order, r.buffers, excuse, r'.buffers)
    ensures excuse <= FiledClashes(r)
      && (ids != [] && Moved(r.names, r.buffers, ids[0]) ==> excuse <= Rest(r.names, r.buffers, ids[0]))
  {
    SoundGoes(r, open, stale);
    var ix, dirty;
    ix, dirty, open', excuse := RefileAll(r.names, r.buffers, ids, open, FiledClashes(r), stale);
    r', open' := ConcludePlain(r.(names := ix), dirty, open', excuse);
  }

  lemma FiledAnew(ix: Index, buffers: map<Id, Buffer>, open: Open, dirty: Dirty, excuse: set<string>, id: Id,
                  name: Option<string>, buf: Buffer)
    requires GoingBut(ix, buffers, open, dirty, excuse, {}, id, name) && id in ix.files.place && buf.Origin().None?
    ensures Going(FiledIndex(ix, id, buf), buffers[id := buf], FiledOpen(ix, open, id, buf),
                  dirty + FilingDirty(ix, buf), excuse, {})
    ensures FiledIndex(ix, id, buf).files.place == ix.files.place
  {
    var none: set<Id> := {};
    assert excuse + Brought(buf) == excuse && none - {id} == none;
    GoingButOther(ix, buffers, open, dirty, excuse, none, id, name, buf);
    FiledGoing(ix, buffers[id := buf], open, dirty, excuse, none, id, name);
  }

  lemma OrderSame(order: seq<Id>, buffers: map<Id, Buffer>, place: map<Id, nat>, nextPlace: nat, id: Id, buf: Buffer)
    requires OrderOk(order, buffers, place, nextPlace) && id in buffers
    ensures OrderOk(order, buffers[id := buf], place, nextPlace)
  {
  }

  /** A buffer unfiled, changed and filed again: settling can begin. */
  lemma ResetPends(r: Registry, ix: Index, open: Open, dirty: Dirty, excuse: set<string>, id: Id, buf: Buffer)
    requires id in r.buffers && GoingBut(ix, r.buffers, open, dirty, excuse, {}, id, Some(r.buffers[id].name))
    requires OrderOk(r.order, r.buffers, r.names.files.place, r.nextPlace) && ix.files.place == r.names.files.place
      && buf.Origin().None?
    ensures id in ix.files.place
    ensures Pending(Registry(r.buffers[id := buf], r.order, FiledIndex(ix, id, buf), r.nextPlace),
                    FiledOpen(ix, open, id, buf), dirty + FilingDirty(ix, buf), excuse)
  {
    assert id in ix.files.place;
    FiledAnew(ix, r.buffers, open, dirty, excuse, id, Some(r.buffers[id].name), buf);
    OrderSame(r.order, r.buffers, r.names.files.place, r.nextPlace, id, buf);
    GoingPends(Registry(r.buffers[id := buf], r.order, FiledIndex(ix, id, buf), r.nextPlace),
               FiledOpen(ix, open, id, buf), dirty + FilingDirty(ix, buf), excuse);
  }

  /** Unfile a buffer, change it, and file it again with a name of its own. */
  method Reset(r: Registry, id: Id, buf: Buffer, ghost open: Open)
    returns (r': Registry, ghost open': Open)
    requires Sound(r, open, {}) && id in r.buffers && !buf.derived
    ensures Sound(r', open', {}) && r'.order == r.order
      && Concludes(r.order, r.buffers[id := buf], Clashes(r.buffers - {id}), r'.buffers)
  {
    SoundGoes(r, open, {});
    SoundRest(r, open, {}, id);
    var ix, dirty;
    ix, dirty, open' := UnfileOne(r.names, r.buffers, id, {}, open, FiledClashes(r), {});
    ghost var excuse := FiledClashes(r) * Rest(r.names, r.buffers, id);
    ResetPends(r, ix, open', dirty, excuse, id, buf);
    open' := FiledOpen(ix, open', id, buf);
    ix, dirty := File(ix, id, buf, dirty);
    r', open' := Conclude(Registry(r.buffers[id := buf], r.order, ix, r.nextPlace), dirty, open', excuse);
    ConcludesMore(r.order, r.buffers[id := buf], excuse, r'.buffers, Clashes(r.buffers - {id}));
  }

  // ----- remove -----

  lemma UnplacedGoing(ix: Index, buffers: map<Id, Buffer>, open: Open, dirty: Dirty, excuse: set<string>, id: Id,
                      name: Option<string>)
    requires GoingBut(ix, buffers, open, dirty, excuse, {}, id, name)
    ensures Going(Placed(ix, ix.files.place - {id}), buffers - {id}, open, dirty, excuse, {})
  {
    assert Look(0);
    UnplaceStep(ix, buffers, open, dirty, excuse, id);
  }

  /** Take a buffer out of the registry. */
  method Drop(r: Registry, id: Id, ghost open: Open)
    returns (r': Registry, ghost open': Open)
    requires Sound(r, open, {}) && id in r.buffers
    ensures Sound(r', open', {}) && r'.order == Without(r.order, id)
    ensures Concludes(r'.order, r.buffers - {id}, Clashes(r.buffers - {id}), r'.buffers)
  {
    SoundGoes(r, open, {});
    SoundRest(r, open, {}, id);
    var ix, dirty;
    ix, dirty, open' := UnfileOne(r.names, r.buffers, id, {}, open, FiledClashes(r), {});
    ghost var excuse := FiledClashes(r) * Rest(r.names, r.buffers, id);
    UnplacedGoing(ix, r.buffers, open', dirty, excuse, id, Some(r.buffers[id].name));
    OrderRemoved(r.order, r.buffers, r.names.files.place, r.nextPlace, id);
    ix := Placed(ix, ix.files.place - {id});
    r', open' := ConcludePlain(Registry(r.buffers - {id}, Without(r.order, id), ix, r.nextPlace), dirty, open', excuse);
    ConcludesMore(r'.order, r.buffers - {id}, excuse, r'.buffers, Clashes(r.buffers - {id}));
  }
}

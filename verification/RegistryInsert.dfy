/** Inserting a buffer (`insert` in src/buffer_registry.rs): the session is named as
    naming it all at once does, unless the buffer's own name clashes. */
module RegistryInsert {
  import opened Options
  import opened Sealing
  import opened NameText
  import opened BufferNames
  import opened HolderNaming
  import opened SessionNames
  import opened NameIndex
  import opened IndexSteps
  import opened IndexMarks
  import opened IndexMembers
  import opened IndexFiling
  import opened IndexCounts
  import opened Settling
  import opened SettlePlan
  import opened SettleRun
  import opened RegistrySteps
  import opened SettleLoop
  import opened SettleEnds
  import opened SettleClashes
  import opened SessionAgreement
  import opened EventFiling
  import opened InsertClash
  import opened RegistryEvents
  import opened RegistryOrder
  import opened RegistryRuns
  import opened RegistryActs

  /** The paths of a session. */
  ghost function SessionPaths(buffers: map<Id, Buffer>): set<seq<string>> {
    set id | id in buffers && buffers[id].Origin().Some? :: Names(buffers[id].Origin().value)
  }

  /** Once in the session, the buffer's path is shown by the very name the buffer
      carries, and a buffer of another path carries it too. */
  ghost predicate NameClashes(buffers: map<Id, Buffer>, id: Id)
    requires id in buffers
  {
    && buffers[id].Origin().Some?
    && Base(SessionPaths(buffers), ExplicitNames(buffers), Names(buffers[id].Origin().value)) == buffers[id].name
    && exists y :: SameNameElsewhere(buffers, id, y)
  }

  ghost predicate SameNameElsewhere(buffers: map<Id, Buffer>, id: Id, y: Id)
    requires id in buffers && buffers[id].Origin().Some?
  {
    && y in buffers && buffers[y].Origin().Some?
    && Names(buffers[y].Origin().value) != Names(buffers[id].Origin().value)
    && buffers[y].name == buffers[id].name
  }

  /** A buffer of another path shows the same name. */
  ghost predicate SharesName(buffers: map<Id, Buffer>, id: Id) {
    id in buffers && buffers[id].Origin().Some? && exists y :: SameNameElsewhere(buffers, id, y)
  }

  lemma SessionPathsAre(buffers: map<Id, Buffer>, member: map<Id, (string, string)>, place: map<Id, nat>, open: Open)
    requires AllFiled(buffers, member, open) && MembersOk(member, place, open) && member.Keys <= buffers.Keys
    ensures SessionPaths(buffers) == OpenSet(open)
  {
    forall a | a in SessionPaths(buffers) ensures a in OpenSet(open) {
      var id :| id in buffers && buffers[id].Origin().Some? && Names(buffers[id].Origin().value) == a;
      assert FiledRight(buffers[id], id, member, open);
    }
    forall a | a in OpenSet(open) ensures a in SessionPaths(buffers) {
      var w :| w in open && open[w].names == a;
      var id := HasHolder(member, place, open, w);
      assert FiledRight(buffers[id], id, member, open);
    }
  }

  /** The session as the index records it. */
  lemma SessionIs(ix: Index, buffers: map<Id, Buffer>, open: Open, dirty: Dirty, excuse: set<string>)
    requires Filings(ix, buffers, open, dirty, excuse, {})
    ensures SessionPaths(buffers) == OpenSet(open) && ExplicitNames(buffers) == ix.reserved.Keys
  {
    assert AllFiled(buffers, ix.files.member, open);
    SessionPathsAre(buffers, ix.files.member, ix.files.place, open);
    assert BuffersHold(buffers, NamesIn(buffers));
    ExplicitAre(ix.reserved, buffers, NamesIn(buffers), ix.files.member, open);
  }

  /** A buffer filed under its path. */
  lemma FiledAt(ix: Index, buffers: map<Id, Buffer>, open: Open, dirty: Dirty, excuse: set<string>, id: Id)
    requires Filings(ix, buffers, open, dirty, excuse, {}) && id in buffers && buffers[id].Origin().Some?
    ensures var names := Names(buffers[id].Origin().value);
      && id in ix.files.member && ix.files.member[id].1 == Last(names) && Last(names) in open
      && open[Last(names)].names == names
      && BaseOf(open, ix.reserved.Keys, Last(names)) == Base(SessionPaths(buffers), ExplicitNames(buffers), names)
      && id in IdsOf(open[Last(names)].holders)
  {
    assert FiledRight(buffers[id], id, ix.files.member, open);
    SessionIs(ix, buffers, open, dirty, excuse);
    var w := ix.files.member[id].1;
    var t :| 0 <= t < |open[w].holders| && open[w].holders[t] == (ix.files.place[id], id);
  }

  // ----- a buffer that does not clash -----

  /** Once settled, a path that was marked and shows a name that reads as `<N>` of another
      path's shows it for its base. */
  lemma MarkedShowsBase(aim: Aim, holding: map<Id, string>, q: string, u: string, id: Id)
    requires aim.plan.Valid() && q in aim.plan.base && u in aim.plan.base && q != u && aim.plan.Formed(holding, q)
    requires id in holding && id in IdsOf(aim.plan.holders[q]) && IsSuffixed(aim.plan.base[u], holding[id])
    ensures holding[id] == aim.plan.base[q]
  {
    var t := HolderPlace(aim.plan, q, id);
    FormedName(aim.plan, holding, q, t);
    if holding[id] != aim.plan.base[q] {
      OwnedByOne(aim.plan.base[q], aim.plan.base[u], holding[id]);
    }
  }

  /** The inserted buffer, filed under its path, which is marked. */
  ghost predicate Inserted(r: Registry, open: Open, dirty: Dirty, id: Id) {
    && id in r.buffers && r.buffers[id].Origin().Some?
    && var q := Last(Names(r.buffers[id].Origin().value)); q in open && Marked(open, dirty, q)
  }

  lemma OtherPath(buffers: map<Id, Buffer>, id: Id, y: Id, member: map<Id, (string, string)>, open: Open, nextPath: nat)
    requires id in buffers && y in buffers && buffers[id].Origin().Some? && FiledRight(buffers[y], y, member, open)
    requires EntriesOk(open, nextPath) && y in member && member[y].1 != Last(Names(buffers[id].Origin().value))
      && buffers[y].name == buffers[id].name
    ensures SameNameElsewhere(buffers, id, y)
  {
  }

  /** An inserted buffer clashes in the end only if its path is to be shown by the name it
      carries, and a buffer of another path carries it too. */
  lemma InsertedClash(r: Registry, open: Open, dirty: Dirty, excuse: set<string>, r': Registry, open': Open, y: Id,
                      z: Id, id: Id)
    requires Pending(r, open, dirty, excuse) && Reached(r, open, dirty, r', open')
      && OnlyDerivedNames(r.buffers, r'.buffers)
    requires Inserted(r, open, dirty, id) && Clash(r'.buffers, y, z) && (id == y || id == z)
    ensures NameClashes(r.buffers, id)
  {
    var q := Last(Names(r.buffers[id].Origin().value));
    var u, h := InsertedAgainst(r, open, dirty, excuse, r', open', y, z, id);
    assert Look(0);
    assert FiledRight(r.buffers[h], h, r.names.files.member, open);
    assert SameNameElsewhere(r.buffers, id, h) by {
      OtherPath(r.buffers, id, h, r.names.files.member, open, r.names.files.nextPath);
    }
  }

  lemma InsertedPaths(r: Registry, open: Open, dirty: Dirty, excuse: set<string>, id: Id, u: string, h: Id)
    requires Unsettled(r, open, dirty, excuse) && Inserted(r, open, dirty, id) && u in open && !Marked(open, dirty, u)
      && h in IdsOf(open[u].holders)
    ensures var q := Last(Names(r.buffers[id].Origin().value));
      && h != id && u != q && h in r.names.files.member && r.names.files.member[h].1 == u
      && id in IdsOf(open[q].holders)
      && BaseOf(open, r.names.reserved.Keys, q) == Base(SessionPaths(r.buffers), ExplicitNames(r.buffers),
                                                        Names(r.buffers[id].Origin().value))
  {
    var q := Last(Names(r.buffers[id].Origin().value));
    FiledAt(r.names, r.buffers, open, dirty, excuse, id);
    HoldersAreMembersIn(r.names.files.member, r.names.files.place, open, u, h);
    HoldersAreMembersIn(r.names.files.member, r.names.files.place, open, q, id);
  }

  /** The buffer an inserted one clashes with, and its path. */
  lemma InsertedAgainst(r: Registry, open: Open, dirty: Dirty, excuse: set<string>, r': Registry, open': Open,
                        y: Id, z: Id, id: Id) returns (u: string, h: Id)
    requires Pending(r, open, dirty, excuse) && Reached(r, open, dirty, r', open')
      && OnlyDerivedNames(r.buffers, r'.buffers)
    requires Inserted(r, open, dirty, id) && Clash(r'.buffers, y, z) && (id == y || id == z)
    ensures h in r.buffers && h in r.names.files.member
      && r.names.files.member[h].1 != Last(Names(r.buffers[id].Origin().value))
    ensures r.buffers[h].name == r.buffers[id].name
    ensures Base(SessionPaths(r.buffers), ExplicitNames(r.buffers),
                 Names(r.buffers[id].Origin().value)) == r.buffers[id].name
  {
    var q, o := Last(Names(r.buffers[id].Origin().value)), 0;
    u, h, o := ReachedClash(r, open, dirty, excuse, r', open', y, z);
    assert Unsettled(r, open, dirty, excuse) by { assert Look(0); }
    InsertedPaths(r, open, dirty, excuse, id, u, h);
    ReachedBase(r, open, dirty, r', open', q, u, id);
  }

  lemma ReachedClash(r: Registry, open: Open, dirty: Dirty, excuse: set<string>, r': Registry, open': Open, y: Id,
                     z: Id)
    returns (u: string, h: Id, o: Id)
    requires Pending(r, open, dirty, excuse) && Reached(r, open, dirty, r', open')
      && OnlyDerivedNames(r.buffers, r'.buffers)
    requires Clash(r'.buffers, y, z)
    ensures (h == y && o == z) || (h == z && o == y)
    ensures u in open && !Marked(open, dirty, u) && h in IdsOf(open[u].holders)
      && IsSuffixed(BaseOf(open, r.names.reserved.Keys, u), r'.buffers[y].name)
    ensures Clash(r.buffers, y, z) && r.buffers[y].name == r'.buffers[y].name
  {
    assert Look(0);
    u, h, o := ClashBefore(r, open, dirty, excuse, r'.names, r'.buffers, open', NamesIn(r'.buffers), y, z);
  }

  lemma ReachedBase(r: Registry, open: Open, dirty: Dirty, r': Registry, open': Open, q: string, u: string, id: Id)
    requires Reached(r, open, dirty, r', open') && q in open && u in open && q != u && id in IdsOf(open[q].holders)
    requires id in r'.buffers && IsSuffixed(BaseOf(open, r.names.reserved.Keys, u), r'.buffers[id].name)
    ensures BaseOf(open, r.names.reserved.Keys, q) == r'.buffers[id].name
  {
    var aim := AimOf(r.names, open, NamesIn(r.buffers), dirty);
    assert aim.plan.Valid() && aim.plan.Formed(NamesIn(r'.buffers), q) by { assert Look(0); }
    assert aim.plan.base[q] == BaseOf(open, r.names.reserved.Keys, q) && aim.plan.holders[q] == open[q].holders;
    MarkedShowsBase(aim, NamesIn(r'.buffers), q, u, id);
  }

  // ----- a buffer that clashes -----

  /** The buffer `id`, alone in its path `q`, carries the name `m` that shows `q`, and
      the buffer `y` of the path `v`, which settling does not reach, carries it too. */
  ghost predicate Doubled(ix: Index, open: Open, holding: map<Id, string>, dirty: Dirty, id: Id, q: string, y: Id,
                          v: string, m: string) {
    && q in open && v in open && HolderIds(open[q].holders) == [id] && y in IdsOf(open[v].holders) && q != v
    && BaseOf(open, ix.reserved.Keys, q) == m && m !in ix.reserved && Marked(open, dirty, q)
    && id in holding && holding[id] == m && y in holding && holding[y] == m
    && SparesPath(open, ix.reserved.Keys, holding, dirty, v)
  }

  lemma ClashBegins(ix: Index, buffers: map<Id, Buffer>, open: Open, id: Id, y: Id)
    requires FilingsBut(ix, buffers, open, {}, {}, {}, id) && id in buffers && id in ix.files.place
    requires buffers[id].Origin().Some? && SameNameElsewhere(buffers, id, y)
    ensures Contested(ix, open, NamesIn(buffers - {id}), id, buffers[id].name, Last(Names(buffers[y].Origin().value)),
                      y)
    ensures Last(Names(buffers[y].Origin().value)) in open && Spelt(open)
  {
    assert FiledRight(buffers[y], y, ix.files.member, open);
    var v := ix.files.member[y].1;
    var t :| 0 <= t < |open[v].holders| && open[v].holders[t] == (ix.files.place[y], y);
    assert y in IdsOf(open[v].holders);
  }

  lemma PathsApart(p: Path, q: Path)
    requires Names(p) != Names(q)
    ensures Last(Names(p)) != Last(Names(q))
  {
    if Last(Names(p)) == Last(Names(q)) {
      NamesSpell(p);
      NamesSpell(q);
      LastIsUnshared(Names(p), Names(q));
    }
  }

  lemma JoinKeepsPath(f: Files, open: Open, id: Id, path: Path, v: string)
    requires id in f.place && v in open && v != Last(Names(path))
    ensures var open' := JoinOpen(f, open, id, path, Names(path)); v in open' && open'[v] == open[v]
  {
  }

  lemma ClashFacts(ix: Index, open: Open, holding: map<Id, string>, id: Id, path: Path, m: string, v: string, y: Id,
                   open': Open, nextPath': nat)
    requires Contested(ix, open, holding, id, m, v, y) && v != Last(Names(path)) && v in open
    requires id in ix.files.place && id !in holding && open' == JoinOpen(ix.files, open, id, path, Names(path))
    requires EntriesOk(open', nextPath') && Spelt(open') && Last(Names(path)) in open'
      && BaseOf(open', ix.reserved.Keys, Last(Names(path))) == m
    ensures Has(open, ix.reserved.Keys, holding, v, y, m) && m !in open[v].names && m !in ix.reserved
    ensures Opened(open, holding, open', holding[id := m], Last(Names(path)), Names(path), id, m) && v in open'
  {
    var q := Last(Names(path));
    assert v in open' && open'[v] == open[v] by { JoinKeepsPath(ix.files, open, id, path, v); }
    assert q in open ==> SameNamesAndIds(open, open') by { if q in open { JoinSame(ix.files, open, id, path); } }
    ClashHas(ix, open, holding, id, m, v, y, open', nextPath', q);
    assert Opened(open, holding, open', holding[id := m], q, Names(path), id, m) by {
      OpenedBy(ix.files, open, holding, id, path, m);
    }
  }

  lemma ClashDoubles(ix: Index, open: Open, holding: map<Id, string>, id: Id, names: Listed, m: string, v: string,
                     y: Id,
                     ix': Index, open': Open, holding': map<Id, string>, dirty: Dirty, q: string)
    requires Contested(ix, open, holding, id, m, v, y) && Has(open, ix.reserved.Keys, holding, v, y, m)
      && m !in open[v].names && m !in ix.reserved
    requires Opened(open, holding, open', holding', q, names, id, m) && v in open' && v != q && y in holding && y != id
    requires ix'.reserved == ix.reserved && PlanOf(open', ix.reserved.Keys, holding').Valid()
      && HoldersHold(holding', open')
    requires Spelt(open) && Spelt(open')
    requires AllGood(open', ix.reserved.Keys, holding', dirty, {m}) && BaseOf(open', ix.reserved.Keys, q) == m
    requires Marked(open', dirty, q) && forall d :: d in dirty ==> d.0 == names[0]
    ensures Doubled(ix', open', holding', dirty, id, q, y, v, m)
  {
    assert Spared(PlanOf(open', ix.reserved.Keys, holding'), open', holding', dirty, {}, MarkedPaths(open', dirty),
                  v) by {
      ClashBase(ix, open, holding, id, m, v, y, open', holding', dirty, q, names);
      ClashSpared(ix, open, holding, id, m, v, y, open', holding', dirty, q, names,
                  PlanOf(open', ix.reserved.Keys, holding'));
    }
  }

  lemma JoinDirtyGroups(f: Files, names: Listed)
    ensures forall d :: d in JoinDirty(f, names) ==> d.0 == names[0]
  {
    forall d | d in JoinDirty(f, names) ensures d.0 == names[0] {
      JoinDirtyGroup(f, names, d);
    }
  }

  /** What is known of a session with the buffer filed. */
  lemma FiledFacts(ix: Index, buffers: map<Id, Buffer>, open: Open, dirty: Dirty, excuse: set<string>, id: Id)
    requires Going(ix, buffers, open, dirty, excuse, {}) && id in buffers && buffers[id].Origin().Some?
    ensures Last(Names(buffers[id].Origin().value)) in open
      && BaseOf(open, ix.reserved.Keys, Last(Names(buffers[id].Origin().value))) ==
      Base(SessionPaths(buffers), ExplicitNames(buffers), Names(buffers[id].Origin().value))
    ensures PlanOf(open, ix.reserved.Keys, NamesIn(buffers)).Valid()
    ensures EntriesOk(open, ix.files.nextPath) && Spelt(open) && HoldersHold(NamesIn(buffers), open)
      && AllGood(open, ix.reserved.Keys, NamesIn(buffers), dirty, excuse)
  {
    assert Look(0);
    FiledAt(ix, buffers, open, dirty, excuse, id);
    PlanValid(ix, open, NamesIn(buffers));
  }

  /** A clashing buffer, filed. */
  lemma InsertDoubles(ix: Index, buffers: map<Id, Buffer>, open: Open, id: Id, y: Id, ix': Index, open': Open,
                      dirty: Dirty)
    requires GoingBut(ix, buffers, open, {}, {}, {}, id, None) && id in buffers && id in ix.files.place
      && buffers[id].Origin().Some?
    requires SameNameElsewhere(buffers, id, y)
    requires Base(SessionPaths(buffers), ExplicitNames(buffers), Names(buffers[id].Origin().value)) == buffers[id].name
    requires ix' == FiledIndex(ix, id, buffers[id]) && open' == FiledOpen(ix, open, id, buffers[id])
      && dirty == FilingDirty(ix, buffers[id])
    requires Going(ix', buffers, open', dirty, {buffers[id].name}, {})
    requires Last(Names(buffers[id].Origin().value)) in open'
      && Marked(open', dirty, Last(Names(buffers[id].Origin().value)))
    ensures Doubled(ix', open', NamesIn(buffers), dirty, id, Last(Names(buffers[id].Origin().value)), y,
                    Last(Names(buffers[y].Origin().value)), buffers[id].name)
  {
    var path, m, holding := buffers[id].Origin().value, buffers[id].name, NamesIn(buffers - {id});
    var q, v := Last(Names(path)), Last(Names(buffers[y].Origin().value));
    assert v != q by { PathsApart(buffers[y].Origin().value, path); }
    assert NamesIn(buffers) == holding[id := m] by { NamesMore(buffers, id); }
    assert Contested(ix, open, holding, id, m, v, y) && v in open && Spelt(open) by {
      assert Look(0);
      ClashBegins(ix, buffers, open, id, y);
    }
    FiledFacts(ix', buffers, open', dirty, {m}, id);
    ClashFacts(ix, open, holding, id, path, m, v, y, open', ix'.files.nextPath);
    JoinDirtyGroups(ix.files, Names(path));
    ClashDoubles(ix, open, holding, id, Names(path), m, v, y, ix', open', NamesIn(buffers), dirty, q);
  }

  lemma SoleFormed(plan: Plan, holding: map<Id, string>, q: string, id: Id)
    requires plan.Valid() && q in plan.base && HolderIds(plan.holders[q]) == [id] && plan.base[q] !in plan.res
      && plan.Formed(holding, q)
    ensures id in holding && holding[id] == plan.base[q]
  {
    assert plan.holders[q][0].1 == HolderIds(plan.holders[q])[0] == id;
    FormedName(plan, holding, q, 0);
  }

  /** It keeps its name, and so does the buffer that has it already. */
  lemma DoubledEnds(r: Registry, open: Open, dirty: Dirty, r': Registry, open': Open, id: Id, q: string, y: Id,
                    v: string, m: string)
    requires Doubled(r.names, open, NamesIn(r.buffers), dirty, id, q, y, v, m)
    requires Reached(r, open, dirty, r', open')
    ensures id in r'.buffers && y in r'.buffers && r'.buffers[id].name == m && r'.buffers[y].name == m
  {
    assert HoldersHold(NamesIn(r.buffers), open) by { assert Look(0); }
    var aim := AimOf(r.names, open, NamesIn(r.buffers), dirty);
    assert aim.plan.Formed(NamesIn(r'.buffers), q)
        && aim.plan.Held(NamesIn(r'.buffers), v, NamesAt(aim.plan.before, aim.plan.holders[v])) by { assert Look(0); }
    SoleFormed(aim.plan, NamesIn(r'.buffers), q, id);
    KeptHolder(aim.plan, NamesIn(r'.buffers), v, y);
  }

  // ----- the event -----

  lemma AbsentGoing(ix: Index, buffers: map<Id, Buffer>, open: Open, dirty: Dirty, excuse: set<string>, id: Id)
    requires Going(ix, buffers, open, dirty, excuse, {}) && id !in buffers
    ensures GoingBut(ix, buffers, open, dirty, excuse, {}, id, None)
  {
    assert Look(0);
    assert buffers - {id} == buffers;
  }

  lemma PlacedGoing(ix: Index, buffers: map<Id, Buffer>, open: Open, dirty: Dirty, excuse: set<string>, id: Id,
                    buf: Buffer, nextPlace: nat, name: Option<string>)
    requires GoingBut(ix, buffers, open, dirty, excuse, {}, id, name) && forall x ::
      x in ix.files.place ==> ix.files.place[x] < nextPlace
    ensures GoingBut(Placed(ix, ix.files.place[id := nextPlace]), buffers[id := buf], open, dirty, excuse, {}, id, None)
  {
    GoingButOther(ix, buffers, open, dirty, excuse, {}, id, name, buf);
    assert GoingBut(Placed(ix, ix.files.place[id := nextPlace]), buffers[id := buf], open, dirty, excuse, {}, id,
                    None) by {
      assert Look(0);
      PlaceStep(ix, buffers[id := buf], open, dirty, excuse, id, nextPlace);
    }
  }

  /** The inserted buffer's path, filed and marked. */
  lemma InsertMarked(ix: Index, buffers: map<Id, Buffer>, open: Open, dirty: Dirty, excuse: set<string>, id: Id)
    requires GoingBut(ix, buffers, open, dirty, excuse, {}, id, None) && id in buffers && id in ix.files.place
      && buffers[id].Origin().Some?
    ensures var open', w := FiledOpen(ix, open, id, buffers[id]), Last(Names(buffers[id].Origin().value));
      w in open' && Marked(open', dirty + FilingDirty(ix, buffers[id]), w)
  {
    assert Look(0);
    NamesSpell(buffers[id].Origin().value);
    JoinedRight(ix.files, open, id, buffers[id].Origin().value);
  }

  lemma PendsDoubled(ix: Index, r: Registry, open: Open, dirty: Dirty, id: Id, y: Id)
    requires GoingBut(ix, r.buffers, open, {}, {}, {}, id, None) && id in r.buffers && id in ix.files.place
      && r.buffers[id].Origin().Some?
    requires SameNameElsewhere(r.buffers, id, y)
    requires Base(SessionPaths(r.buffers), ExplicitNames(r.buffers),
                  Names(r.buffers[id].Origin().value)) == r.buffers[id].name
    requires r.names == FiledIndex(ix, id, r.buffers[id]) && dirty == FilingDirty(ix, r.buffers[id])
    requires Going(r.names, r.buffers, FiledOpen(ix, open, id, r.buffers[id]), dirty, {r.buffers[id].name}, {})
    requires OrderOk(r.order, r.buffers, r.names.files.place, r.nextPlace)
    ensures var v := Last(Names(r.buffers[y].Origin().value));
      && Doubled(r.names, FiledOpen(ix, open, id, r.buffers[id]), NamesIn(r.buffers), dirty, id,
                 Last(Names(r.buffers[id].Origin().value)), y, v, r.buffers[id].name)
      && Pending(r, FiledOpen(ix, open, id, r.buffers[id]), dirty, {r.buffers[id].name})
  {
    assert {} + dirty == dirty;
    InsertMarked(ix, r.buffers, open, {}, {}, id);
    InsertDoubles(ix, r.buffers, open, id, y, r.names, FiledOpen(ix, open, id, r.buffers[id]), dirty);
  }

  lemma ConcludesNames(order: seq<Id>, was: map<Id, Buffer>, excuse: set<string>, now: map<Id, Buffer>)
    requires Concludes(order, was, excuse, now)
    ensures OnlyDerivedNames(was, now)
  {
    assert Look(0);
  }

  /** What an insertion leaves: what settling does; the buffer itself clashes only as
      `NameClashes` foresees, and no two others that did not. */
  ghost predicate PutLeaves(order: seq<Id>, others: map<Id, Buffer>, was: map<Id, Buffer>, id: Id, now: map<Id, Buffer>)
    requires id in was
  {
    && Concludes(order, was, Clashes(others) + Brought(was[id]), now)
    && (!NameClashes(was, id) ==> Clashes(now) <= Clashes(others))
  }

  lemma PutWithin(order: seq<Id>, was: map<Id, Buffer>, id: Id, now: map<Id, Buffer>)
    requires id in was && Concludes(order, was, Clashes(was - {id}) + Brought(was[id]), now)
    requires was[id].Origin().Some? && !NameClashes(was, id) ==> forall y, z :: Clash(now, y, z) ==> y != id && z != id
    ensures PutLeaves(order, was - {id}, was, id, now)
  {
    if !NameClashes(was, id) {
      assert Look(0);
      if was[id].Origin().Some? {
        OthersClash(was, id, now);
      }
    }
  }

  lemma OthersClash(was: map<Id, Buffer>, id: Id, now: map<Id, Buffer>)
    requires forall y, z :: Clash(now, y, z) ==> y != id && z != id && Clash(was, y, z) && was[y].name == now[y].name
    ensures Clashes(now) <= Clashes(was - {id})
  {
    forall y, z | Clash(now, y, z) ensures now[y].name in Clashes(was - {id}) {
      ClashIn(was - {id}, y, z);
    }
    ClashesWithin(now, Clashes(was - {id}));
  }

  /** Any clash an insertion makes is the inserted buffer's. */
  lemma OnlyItsOwn(order: seq<Id>, others: map<Id, Buffer>, was: map<Id, Buffer>, id: Id, now: map<Id, Buffer>)
    requires id in was && others == was - {id} && PutLeaves(order, others, was, id, now)
    ensures Clashes(now - {id}) <= Clashes(others)
  {
    assert Look(0);
    forall y, z | Clash(now - {id}, y, z) ensures (now - {id})[y].name in Clashes(others) {
      assert Clash(now, y, z);
      ClashIn(others, y, z);
    }
    ClashesWithin(now - {id}, Clashes(others));
  }

  /** The index once a buffer with the id is unfiled, if there is one. */
  function VacatedIndex(r: Registry, id: Id): Index {
    if id in r.buffers then UnfiledIndex(r.names, id, r.buffers[id].name) else r.names
  }

  ghost function VacatedOpen(r: Registry, open: Open, id: Id): Open {
    if id in r.buffers then UnfiledOpen(r.names, open, id) else open
  }

  function VacatedDirty(r: Registry, id: Id): Dirty {
    if id in r.buffers then UnfilingDirty(r.names, id, r.buffers[id].name) else {}
  }

  /** What settling after an insertion starts from and aims at: the paths, the names held
      as the buffer is filed, and the paths that what is marked cannot reach. */
  ghost function InsertAim(r: Registry, open: Open, id: Id, buf: Buffer): Aim {
    var ix := VacatedIndex(r, id);
    var ix := Placed(ix, ix.files.place[id := r.nextPlace]);
    AimOf(FiledIndex(ix, id, buf), FiledOpen(ix, VacatedOpen(r, open, id), id, buf), NamesIn(r.buffers[id := buf]),
          VacatedDirty(r, id) + FilingDirty(ix, buf))
  }

  /** What inserting a buffer leaves of a session: the names of the whole session named at
      once if and only if none clash; unless the buffer is to be shown by a name it brings
      that another path's buffer has, none that did not among the others; and if it is, for
      a new id in a session in accord, one does. Whatever the session, two buffers clash
      exactly if one of them had the other's name for a `<N>` of its path, and nothing the
      insertion marks can reach that path. */
  ghost predicate InsertLeaves(r: Registry, open: Open, id: Id, buf: Buffer, order: seq<Id>, now: map<Id, Buffer>) {
    forall k: nat {:trigger Look(k)} :: Look(k) ==>
      && PutLeaves(order, r.buffers - {id}, r.buffers[id := buf], id, now)
      && NewcomerAccords(r.buffers, id, buf, now)
      && ClashesAs(InsertAim(r, open, id, buf), r.buffers[id := buf], now)
  }

  lemma InsertLeft(r: Registry, open: Open, id: Id, buf: Buffer, order: seq<Id>, now: map<Id, Buffer>)
    requires InsertLeaves(r, open, id, buf, order, now)
    ensures PutLeaves(order, r.buffers - {id}, r.buffers[id := buf], id, now)
      && NewcomerAccords(r.buffers, id, buf, now)
  {
    assert Look(0);
  }

  /** Put a buffer in the registry, at the end of its order. */
  method Put(r: Registry, id: Id, buf: Buffer, ghost open: Open)
    returns (r': Registry, ghost open': Open)
    requires Sound(r, open, {})
    ensures Sound(r', open', {}) && r'.order == Without(r.order, id) + [id]
    ensures InsertLeaves(r, open, id, buf, r'.order, r'.buffers)
  {
    var ix, order, dirty := Vacate(r, id, open);
    ghost var excuse := VacatedPlaced(r, open, id, buf);
    ix := Placed(ix, ix.files.place[id := r.nextPlace]);
    r', open' := PutFiled(ix, Registry(r.buffers[id := buf], order + [id], ix, r.nextPlace + 1), id, dirty,
                          VacatedOpen(r, open, id), excuse);
    NewcomerAccord(r'.order, r.buffers, id, buf, r'.buffers);
  }

  /** A new id in a session in accord leaves it so exactly unless its name clashes, and if
      it does, the buffer shares its name. */
  ghost predicate NewcomerAccords(was: map<Id, Buffer>, id: Id, buf: Buffer, now: map<Id, Buffer>) {
    Clashes(was) == {} && id !in was ==>
      && (Clashes(now) == {} <==> !NameClashes(was[id := buf], id))
      && (Clashes(now) != {} ==> SharesName(now, id))
  }

  lemma NewcomerAccord(order: seq<Id>, was: map<Id, Buffer>, id: Id, buf: Buffer, now: map<Id, Buffer>)
    requires PutLeaves(order, was - {id}, was[id := buf], id, now)
    requires id !in was && Clashes(was) == {} && NameClashes(was[id := buf], id) ==> SharesName(now, id)
    ensures NewcomerAccords(was, id, buf, now)
  {
    if Clashes(was) == {} && id !in was {
      assert was - {id} == was;
      if NameClashes(was[id := buf], id) {
        SharersClash(now, id);
      }
    }
  }

  lemma SharersClash(buffers: map<Id, Buffer>, id: Id)
    requires SharesName(buffers, id)
    ensures Clashes(buffers) != {}
  {
    var y :| SameNameElsewhere(buffers, id, y);
    ClashIn(buffers, id, y);
  }

  /** Make room for a buffer: one with its id is unfiled, and leaves its place. */
  method Vacate(r: Registry, id: Id, ghost open: Open) returns (ix: Index, order: seq<Id>, dirty: Dirty)
    requires Sound(r, open, {})
    ensures ix == VacatedIndex(r, id) && order == Without(r.order, id) && dirty == VacatedDirty(r, id)
  {
    ix, order, dirty := r.names, r.order, {};
    if id in r.buffers {
      SoundGoes(r, open, {});
      GoingFiles(ix, r.buffers, open, {}, FiledClashes(r), {});
      ix, dirty := Unfile(ix, id, r.buffers[id].name, dirty, open);
      order := Without(order, id);
    } else {
      SoundAbsent(r, open, id);
    }
  }

  lemma SoundAbsent(r: Registry, open: Open, id: Id)
    requires Sound(r, open, {}) && id !in r.buffers
    ensures Without(r.order, id) == r.order
  {
    SoundGoes(r, open, {});
    WithoutAbsent(r.order, id);
  }

  lemma VacatedGoing(r: Registry, open: Open, id: Id) returns (excuse: set<string>, name: Option<string>)
    requires Sound(r, open, {})
    ensures GoingBut(VacatedIndex(r, id), r.buffers, VacatedOpen(r, open, id), VacatedDirty(r, id), excuse, {}, id,
                     name)
    ensures VacatedIndex(r, id).files.place == r.names.files.place && excuse <= Clashes(r.buffers - {id})
  {
    SoundGoes(r, open, {});
    SoundRest(r, open, {}, id);
    if id in r.buffers {
      excuse, name := FiledClashes(r) * Rest(r.names, r.buffers, id), Some(r.buffers[id].name);
      UnfiledGoing(r.names, r.buffers, open, {}, FiledClashes(r), {}, id);
      assert {} + VacatedDirty(r, id) == VacatedDirty(r, id);
    } else {
      excuse, name := FiledClashes(r), None;
      AbsentGoing(r.names, r.buffers, open, {}, excuse, id);
      assert r.buffers - {id} == r.buffers;
    }
  }

  /** Room made and the buffer given its place, it may be filed. */
  lemma VacatedPlaced(r: Registry, open: Open, id: Id, buf: Buffer) returns (excuse: set<string>)
    requires Sound(r, open, {})
    ensures var ix := VacatedIndex(r, id);
      var ix := Placed(ix, ix.files.place[id := r.nextPlace]);
      && GoingBut(ix, r.buffers[id := buf], VacatedOpen(r, open, id), VacatedDirty(r, id), excuse, {}, id, None)
      && OrderOk(Without(r.order, id) + [id], r.buffers[id := buf], ix.files.place, r.nextPlace + 1)
    ensures excuse <= Clashes(r.buffers[id := buf] - {id}) && r.buffers[id := buf] - {id} == r.buffers - {id}
  {
    var name;
    excuse, name := VacatedGoing(r, open, id);
    OthersStand(r.buffers, id, buf);
    SoundGoes(r, open, {});
    PlacedGoing(VacatedIndex(r, id), r.buffers, VacatedOpen(r, open, id), VacatedDirty(r, id), excuse, id, buf,
                r.nextPlace, name);
    OrderInserted(r.order, r.buffers, r.names.files.place, r.nextPlace, id, buf);
  }

  lemma PutGoing(ix: Index, r: Registry, id: Id, dirty: Dirty, open: Open, excuse: set<string>)
    requires GoingBut(ix, r.buffers, open, dirty, excuse, {}, id, None) && id in r.buffers && id in ix.files.place
    requires OrderOk(r.order, r.buffers, ix.files.place, r.nextPlace)
    ensures Going(FiledIndex(ix, id, r.buffers[id]), r.buffers, FiledOpen(ix, open, id, r.buffers[id]),
                  dirty + FilingDirty(ix, r.buffers[id]),
                  excuse + Brought(r.buffers[id]), {})
    ensures OrderOk(r.order, r.buffers, FiledIndex(ix, id, r.buffers[id]).files.place, r.nextPlace)
  {
    FiledGoing(ix, r.buffers, open, dirty, excuse, {}, id, None);
  }

  lemma DoubledShares(r: Registry, open: Open, dirty: Dirty, r': Registry, open': Open, id: Id, y: Id, v: string)
    requires id in r.buffers && r.buffers[id].Origin().Some? && SameNameElsewhere(r.buffers, id, y)
    requires Doubled(r.names, open, NamesIn(r.buffers), dirty, id, Last(Names(r.buffers[id].Origin().value)), y, v,
                     r.buffers[id].name)
    requires Reached(r, open, dirty, r', open') && SameButNames(r.buffers, r'.buffers)
    ensures SharesName(r'.buffers, id)
  {
    DoubledEnds(r, open, dirty, r', open', id, Last(Names(r.buffers[id].Origin().value)), y, v, r.buffers[id].name);
    assert SameNameElsewhere(r'.buffers, id, y) by {
      assert r'.buffers[id].Origin() == r.buffers[id].Origin() && r'.buffers[y].Origin() == r.buffers[y].Origin();
    }
  }

  /** What settling after an insertion can count on: the path that keeps the name, if the
      buffer clashes in a session where nothing does. */
  lemma Choose(ix: Index, r: Registry, open: Open, dirty: Dirty, excuse: set<string>, open': Open, dirty': Dirty,
               id: Id)
    returns (y: Id)
    requires GoingBut(ix, r.buffers, open, dirty, excuse, {}, id, None) && id in r.buffers && id in ix.files.place
    requires r.names == FiledIndex(ix, id, r.buffers[id]) && open' == FiledOpen(ix, open, id, r.buffers[id])
      && dirty' == dirty + FilingDirty(ix, r.buffers[id])
    requires Going(r.names, r.buffers, open', dirty', excuse + Brought(r.buffers[id]), {})
    requires OrderOk(r.order, r.buffers, r.names.files.place, r.nextPlace)
    ensures Pending(r, open', dirty', excuse + Brought(r.buffers[id]))
    ensures excuse == {} && dirty == {} && NameClashes(r.buffers, id) ==>
      && SameNameElsewhere(r.buffers, id, y)
      && Doubled(r.names, open', NamesIn(r.buffers), dirty', id, Last(Names(r.buffers[id].Origin().value)), y,
                 Last(Names(r.buffers[y].Origin().value)), r.buffers[id].name)
  {
    y := 0;
    if excuse == {} && dirty == {} && NameClashes(r.buffers, id) {
      assert excuse + Brought(r.buffers[id]) == {r.buffers[id].name} && dirty' == FilingDirty(ix, r.buffers[id]);
      y :| SameNameElsewhere(r.buffers, id, y);
      PendsDoubled(ix, r, open, dirty', id, y);
    } else {
      GoingPends(r, open', dirty', excuse + Brought(r.buffers[id]));
    }
  }

  lemma PutApart(r: Registry, open: Open, dirty: Dirty, excuse: set<string>, r': Registry, open': Open, id: Id)
    requires Pending(r, open, dirty, excuse) && Reached(r, open, dirty, r', open')
      && OnlyDerivedNames(r.buffers, r'.buffers)
    requires Inserted(r, open, dirty, id) && !NameClashes(r.buffers, id)
    ensures forall y, z :: Clash(r'.buffers, y, z) ==> y != id && z != id
  {
    forall y, z | Clash(r'.buffers, y, z) ensures y != id && z != id {
      if y == id || z == id {
        InsertedClash(r, open, dirty, excuse, r', open', y, z, id);
      }
    }
  }

  /** File the inserted buffer and settle. */
  method PutFiled(ix: Index, r: Registry, id: Id, dirty: Dirty, ghost open: Open, ghost excuse: set<string>)
    returns (r': Registry, ghost open': Open)
    requires GoingBut(ix, r.buffers, open, dirty, excuse, {}, id, None) && id in r.buffers && id in ix.files.place
    requires OrderOk(r.order, r.buffers, ix.files.place, r.nextPlace) && excuse <= Clashes(r.buffers - {id})
    ensures Sound(r', open', {}) && r'.order == r.order
      && PutLeaves(r.order, r.buffers - {id}, r.buffers, id, r'.buffers)
    ensures dirty == {} && excuse == {} && NameClashes(r.buffers, id) ==> SharesName(r'.buffers, id)
    ensures ClashesAs(AimOf(FiledIndex(ix, id, r.buffers[id]), FiledOpen(ix, open, id, r.buffers[id]),
                            NamesIn(r.buffers), dirty + FilingDirty(ix, r.buffers[id])), r.buffers, r'.buffers)
  {
    PutGoing(ix, r, id, dirty, open, excuse);
    ghost var filed := FiledOpen(ix, open, id, r.buffers[id]);
    var ix', dirty' := File(ix, id, r.buffers[id], dirty);
    var r0 := r.(names := ix');
    ghost var y := Choose(ix, r0, open, dirty, excuse, filed, dirty', id);
    r', open' := Conclude(r0, dirty', filed, excuse + Brought(r.buffers[id]));
    ConcludesNames(r.order, r.buffers, excuse + Brought(r.buffers[id]), r'.buffers);
    AllClashes(r0, filed, dirty', excuse + Brought(r.buffers[id]), r', open');
    if r.buffers[id].Origin().Some? && !NameClashes(r.buffers, id) {
      InsertMarked(ix, r.buffers, open, dirty, excuse, id);
      PutApart(r0, filed, dirty', excuse + Brought(r.buffers[id]), r', open', id);
    }
    ConcludesMore(r.order, r.buffers, excuse + Brought(r.buffers[id]), r'.buffers,
                  Clashes(r.buffers - {id}) + Brought(r.buffers[id]));
    PutWithin(r.order, r.buffers, id, r'.buffers);
    if excuse == {} && dirty == {} && NameClashes(r.buffers, id) {
      DoubledShares(r0, filed, dirty', r', open', id, y, Last(Names(r.buffers[y].Origin().value)));
    }
  }
}

/** The registry between events and within one: what every event keeps, and what
    settling leaves. */
module RegistryEvents {
  import opened Sealing
  import opened NameText
  import opened BufferNames
  import opened HolderNaming
  import opened SessionNames
  import opened NameIndex
  import opened IndexSteps
  import opened IndexMarks
  import opened IndexFiling
  import opened IndexCounts
  import opened Settling
  import opened SettlePlan
  import opened SettleRun
  import opened RegistrySteps
  import opened PathNaming
  import opened SettleLoop
  import opened SettleEnds
  import opened SettleClashes
  import opened SessionAgreement
  import opened EventFiling

  /** The name each buffer has. */
  ghost function NamesIn(buffers: map<Id, Buffer>): map<Id, string> {
    map id | id in buffers :: buffers[id].name
  }

  /** A registry: its buffers, their order, the naming index and the next place. */
  datatype Registry = Registry(buffers: map<Id, Buffer>, order: seq<Id>, names: Index, nextPlace: nat)

  /** Within an event: every buffer holds its name in the index, every buffer but the
      stale ones is filed under its path, and every path not marked is named by the
      rule, though others may hold the names in `excuse`. */
  ghost predicate Filings(ix: Index, buffers: map<Id, Buffer>, open: Open, dirty: Dirty, excuse: set<string>,
                          stale: set<Id>) {
    && Mid(ix, open, NamesIn(buffers), dirty, excuse)
    && forall id :: id in buffers && id !in stale ==> FiledRight(buffers[id], id, ix.files.member, open)
  }

  /** The same, while the buffer `id` is unfiled. */
  ghost predicate FilingsBut(ix: Index, buffers: map<Id, Buffer>, open: Open, dirty: Dirty, excuse: set<string>,
                             stale: set<Id>, id: Id) {
    && Mid(ix, open, NamesIn(buffers - {id}), dirty, excuse)
    && forall other :: other in buffers && other !in stale && other != id ==>
         FiledRight(buffers[other], other, ix.files.member, open)
  }

  /** Between events: the stale buffers' paths have changed since they were named. */
  ghost predicate Kept(r: Registry, open: Open, excuse: set<string>, stale: set<Id>) {
    && stale <= r.buffers.Keys
    && Filings(r.names, r.buffers, open, {}, excuse, stale)
    && OrderOk(r.order, r.buffers, r.names.files.place, r.nextPlace)
  }

  /** What every event keeps: each buffer but the stale ones is filed under its path,
      every path's holders are named by the rule, and no path needs renaming but for the
      names that clash. */
  ghost predicate Sound(r: Registry, open: Open, stale: set<Id>) {
    forall k: nat {:trigger Look(k)} ::
      Look(k) ==> Kept(r, open, ClashNames(NamesIn(r.buffers), r.names.files.member), stale)
  }

  /** Within an event, all buffers filed and settling yet to come. */
  ghost predicate Unsettled(r: Registry, open: Open, dirty: Dirty, excuse: set<string>) {
    && Filings(r.names, r.buffers, open, dirty, excuse, {})
    && OrderOk(r.order, r.buffers, r.names.files.place, r.nextPlace)
  }

  // ----- filing and unfiling -----

  lemma NamesLess(buffers: map<Id, Buffer>, id: Id)
    ensures NamesIn(buffers - {id}) == NamesIn(buffers) - {id}
  {
  }

  lemma NamesMore(buffers: map<Id, Buffer>, id: Id)
    requires id in buffers
    ensures NamesIn(buffers) == NamesIn(buffers - {id})[id := buffers[id].name]
  {
  }

  lemma RightStill(buffers: map<Id, Buffer>, stale: set<Id>, id: Id, member: map<Id, (string, string)>, open: Open,
                   member': map<Id, (string, string)>, open': Open)
    requires OthersFiled(id, member, open, member', open')
    requires forall other ::
      other in buffers && other !in stale && other != id ==> FiledRight(buffers[other], other, member, open)
    ensures forall other ::
      other in buffers && other !in stale && other != id ==> FiledRight(buffers[other], other, member', open')
  {
  }

  /** Unfiling a buffer. */
  lemma UnfileStep(ix: Index, buffers: map<Id, Buffer>, open: Open, dirty: Dirty, excuse: set<string>, stale: set<Id>,
                   id: Id)
    requires Filings(ix, buffers, open, dirty, excuse, stale) && id in buffers
    ensures var ix', open', dirty' := UnfiledIndex(ix, id, buffers[id].name), UnfiledOpen(ix, open, id),
      dirty + UnfilingDirty(ix, id, buffers[id].name);
      && FilingsBut(ix', buffers, open', dirty', excuse, stale, id)
      && Clear(open', ix'.reserved.Keys, NamesIn(buffers - {id}), dirty', buffers[id].name)
      && ix'.files.place == ix.files.place
  {
    var name := buffers[id].name;
    var ix', open' := UnfiledIndex(ix, id, name), UnfiledOpen(ix, open, id);
    NamesLess(buffers, id);
    UnfiledKeeps(ix, open, NamesIn(buffers), dirty, excuse, id);
    assert ix'.files.place == ix.files.place by {
      if id in ix.files.member { LeaveMember(ix.files, id); }
    }
    assert OthersFiled(id, ix.files.member, open, ix'.files.member, open') by { UnfiledStays(ix, open, id, name); }
    RightStill(buffers, stale, id, ix.files.member, open, ix'.files.member, open');
  }

  /** Filing a buffer. */
  lemma FileStep(ix: Index, buffers: map<Id, Buffer>, open: Open, dirty: Dirty, excuse: set<string>, stale: set<Id>,
                 id: Id)
    requires FilingsBut(ix, buffers, open, dirty, excuse, stale, id) && id in buffers && id in ix.files.place
    ensures var ix', open', dirty' := FiledIndex(ix, id, buffers[id]), FiledOpen(ix, open, id, buffers[id]),
      dirty + FilingDirty(ix, buffers[id]);
      && Filings(ix', buffers, open', dirty', excuse + Brought(buffers[id]), stale - {id})
      && ix'.files.place == ix.files.place
  {
    var buf := buffers[id];
    var ix', open' := FiledIndex(ix, id, buf), FiledOpen(ix, open, id, buf);
    NamesMore(buffers, id);
    assert Mid(ix', open', NamesIn(buffers), dirty + FilingDirty(ix, buf), excuse + Brought(buf)) by {
      FiledKeeps(ix, open, NamesIn(buffers - {id}), dirty, excuse, id, buf);
    }
    assert OthersFiled(id, ix.files.member, open, ix'.files.member, open')
      && FiledRight(buf, id, ix'.files.member, open')
        && ix'.files.place == ix.files.place by {
      FiledPlace(ix, id, buf);
      FiledStays(ix, open, id, buf);
    }
    assert forall o :: o in buffers && o !in stale - {id} ==> FiledRight(buffers[o], o, ix'.files.member, open') by {
      RightStill(buffers, stale, id, ix.files.member, open, ix'.files.member, open');
      RightAlso(buffers, stale, id, ix'.files.member, open');
    }
  }

  lemma RightAlso(buffers: map<Id, Buffer>, stale: set<Id>, id: Id, member: map<Id, (string, string)>, open: Open)
    requires forall other ::
      other in buffers && other !in stale && other != id ==> FiledRight(buffers[other], other, member, open)
    requires id in buffers ==> FiledRight(buffers[id], id, member, open)
    ensures forall o :: o in buffers && o !in stale - {id} ==> FiledRight(buffers[o], o, member, open)
  {
  }

  lemma FiledPlace(ix: Index, id: Id, buf: Buffer)
    requires id in ix.files.place
    ensures FiledIndex(ix, id, buf).files.place == ix.files.place
  {
  }

  /** Filing a buffer whose name troubles no path. */
  lemma FileStepClear(ix: Index, buffers: map<Id, Buffer>, open: Open, dirty: Dirty, excuse: set<string>,
                      stale: set<Id>, id: Id)
    requires FilingsBut(ix, buffers, open, dirty, excuse, stale, id) && id in buffers && id in ix.files.place
    requires Clear(open, ix.reserved.Keys, NamesIn(buffers - {id}), dirty, buffers[id].name)
    ensures var ix', open', dirty' := FiledIndex(ix, id, buffers[id]), FiledOpen(ix, open, id, buffers[id]),
      dirty + FilingDirty(ix, buffers[id]);
      && Filings(ix', buffers, open', dirty', excuse, stale - {id})
      && ix'.files.place == ix.files.place
  {
    FileStep(ix, buffers, open, dirty, excuse, stale, id);
    NamesMore(buffers, id);
    FiledClear(ix, open, NamesIn(buffers - {id}), dirty, excuse, id, buffers[id]);
  }

  // ----- after settling -----

  lemma FiledStill(buffers: map<Id, Buffer>, member: map<Id, (string, string)>, open: Open, buffers': map<Id, Buffer>,
                   open': Open)
    requires AllFiled(buffers, member, open) && SameButNames(buffers, buffers') && SameButDepths(open, open')
    ensures AllFiled(buffers', member, open')
  {
    forall id | id in buffers' ensures FiledRight(buffers'[id], id, member, open') {
      assert FiledRight(buffers[id], id, member, open);
      assert buffers'[id].Origin() == buffers[id].Origin();
    }
  }

  lemma PathsStill(open: Open, open': Open)
    requires PathsNamed(open) && SameButDepths(open, open')
    ensures PathsNamed(open')
  {
  }

  lemma NamesHeld(buffers: map<Id, Buffer>, holding: map<Id, string>)
    requires BuffersHold(buffers, holding) && holding.Keys == buffers.Keys
    ensures holding == NamesIn(buffers)
  {
  }

  lemma AfterRecords(r: Registry, open: Open, ix': Index, buffers': map<Id, Buffer>, open': Open)
    requires PathsNamed(open) && OrderOk(r.order, r.buffers, r.names.files.place, r.nextPlace)
    requires AllFiled(r.buffers, r.names.files.member, open)
    requires OnlyNames(r.names, r.buffers, open, ix', buffers', open')
    ensures PathsNamed(open') && OrderOk(r.order, buffers', ix'.files.place, r.nextPlace)
      && AllFiled(buffers', ix'.files.member, open')
    ensures SameButNames(r.buffers, buffers')
  {
    assert SameTables(r.names, ix') && SameButNames(r.buffers, buffers') && SameButDepths(open, open') by {
      assert Look(0);
    }
    assert AllFiled(buffers', ix'.files.member, open') by {
      FiledStill(r.buffers, r.names.files.member, open, buffers', open');
    }
    assert PathsNamed(open') by { PathsStill(open, open'); }
  }

  /** Only the names of buffers named by a path have changed: a name of a buffer's own
      is never rewritten. */
  ghost predicate OnlyDerivedNames(buffers: map<Id, Buffer>, buffers': map<Id, Buffer>) {
    && SameButNames(buffers, buffers')
    && forall id :: id in buffers && buffers[id].Origin().None? ==> buffers'[id].name == buffers[id].name
  }

  lemma OwnNamesKept(ix: Index, buffers: map<Id, Buffer>, open: Open, plan: Plan, buffers': map<Id, Buffer>,
                     holding': map<Id, string>)
    requires IndexOk(ix, open, NamesIn(buffers)) && AllFiled(buffers, ix.files.member, open)
      && plan == PlanOf(open, ix.reserved.Keys, NamesIn(buffers))
    requires plan.Fits(holding') && BuffersHold(buffers', holding') && SameButNames(buffers, buffers')
    ensures OnlyDerivedNames(buffers, buffers')
  {
    forall id | id in buffers && buffers[id].Origin().None? ensures buffers'[id].name == buffers[id].name {
      assert FiledRight(buffers[id], id, ix.files.member, open);
      MovesIsMember(ix, open, NamesIn(buffers), id);
    }
  }

  lemma AfterNames(buffers: map<Id, Buffer>, plan: Plan, buffers': map<Id, Buffer>, holding': map<Id, string>)
    requires plan.before == NamesIn(buffers) && plan.Fits(holding') && BuffersHold(buffers', holding')
      && buffers'.Keys == buffers.Keys
    ensures holding' == NamesIn(buffers') && NamesIn(buffers').Keys == buffers'.Keys == plan.before.Keys
  {
    NamesHeld(buffers', holding');
  }

  // ----- clashes -----

  /** Two buffers, one named by a path, show one name. */
  ghost predicate Clash(buffers: map<Id, Buffer>, y: Id, z: Id) {
    y in buffers && z in buffers && y != z && buffers[y].Origin().Some? && buffers[y].name == buffers[z].name
  }

  ghost function Clashes(buffers: map<Id, Buffer>): set<string> {
    set y, z | y in buffers && z in buffers && y != z && buffers[y].Origin().Some?
    && buffers[y].name == buffers[z].name :: buffers[y].name
  }

  lemma ClashIn(buffers: map<Id, Buffer>, y: Id, z: Id)
    requires Clash(buffers, y, z)
    ensures buffers[y].name in Clashes(buffers)
  {
  }

  lemma ClashesAre(buffers: map<Id, Buffer>, member: map<Id, (string, string)>, open: Open)
    requires AllFiled(buffers, member, open)
    ensures ClashNames(NamesIn(buffers), member) == Clashes(buffers)
    ensures forall y, z :: Clash(buffers, y, z) <==> Clashing(NamesIn(buffers), member, y, z)
  {
    assert forall y :: y in buffers ==> (y in member <==> buffers[y].Origin().Some?) by {
      forall y | y in buffers ensures y in member <==> buffers[y].Origin().Some? {
        assert FiledRight(buffers[y], y, member, open);
      }
    }
    forall n | n in ClashNames(NamesIn(buffers), member) ensures n in Clashes(buffers) {
      var y, z := ClashOf(NamesIn(buffers), member, n);
      ClashIn(buffers, y, z);
    }
    forall n | n in Clashes(buffers) ensures n in ClashNames(NamesIn(buffers), member) {
      var y, z :| y in buffers && z in buffers && y != z && buffers[y].Origin().Some?
        && buffers[y].name == buffers[z].name && buffers[y].name == n;
      ClashNamed(NamesIn(buffers), member, y, z);
    }
  }

  lemma ClashesLess(buffers: map<Id, Buffer>, member: map<Id, (string, string)>, open: Open, id: Id)
    requires forall other :: other in buffers && other != id ==> FiledRight(buffers[other], other, member, open)
    ensures ClashNames(NamesIn(buffers - {id}), member - {id}) == Clashes(buffers - {id})
  {
    var less, member' := buffers - {id}, member - {id};
    forall other | other in less ensures FiledRight(less[other], other, member', open) {
      assert FiledRight(buffers[other], other, member, open);
    }
    ClashesAre(less, member', open);
  }

  /** Unfiling a buffer excuses no name but those that clash without it. */
  lemma UnfiledTight(ix: Index, buffers: map<Id, Buffer>, open: Open, dirty: Dirty, excuse: set<string>, stale: set<Id>,
                     id: Id)
    requires FilingsBut(ix, buffers, open, dirty, excuse, stale, id)
    ensures FilingsBut(ix, buffers, open, dirty, excuse * ClashNames(NamesIn(buffers - {id}), ix.files.member), stale,
                       id)
  {
    var holding := NamesIn(buffers - {id});
    OnlyClashes(ix, open, holding, dirty, excuse);
    BothExcused(open, ix.reserved.Keys, holding, dirty, excuse, ClashNames(holding, ix.files.member));
  }

  /** The session, once settled. */
  lemma AfterSettling(r: Registry, open: Open, dirty: Dirty, excuse: set<string>, aim: Aim,
                      ix': Index, buffers': map<Id, Buffer>, open': Open, holding': map<Id, string>)
    requires Unsettled(r, open, dirty, excuse) && aim.plan == PlanOf(open, r.names.reserved.Keys, NamesIn(r.buffers))
    requires Settled(ix', buffers', open', holding', aim) && OnlyNames(r.names, r.buffers, open, ix', buffers', open')
    ensures holding' == NamesIn(buffers') && OnlyDerivedNames(r.buffers, buffers')
      && AllFiled(buffers', ix'.files.member, open')
    ensures Sound(Registry(buffers', r.order, ix', r.nextPlace), open', {})
  {
    AfterRecords(r, open, ix', buffers', open');
    assert holding' == NamesIn(buffers') by { AfterNames(r.buffers, aim.plan, buffers', holding'); }
    assert OnlyDerivedNames(r.buffers, buffers') by {
      OwnNamesKept(r.names, r.buffers, open, aim.plan, buffers', holding');
    }
    assert AllGood(open', ix'.reserved.Keys, holding', {}, ClashNames(holding', ix'.files.member)) by {
      OnlyClashes(ix', open', holding', {}, AllNames(holding'));
    }
    assert Kept(Registry(buffers', r.order, ix', r.nextPlace), open', ClashNames(holding', ix'.files.member), {});
  }

  /** With no name clashing, and only then, the session is named as naming it all at once
      does. */
  lemma AfterAccord(r: Registry, open: Open, dirty: Dirty, excuse: set<string>, aim: Aim,
                    ix': Index, buffers': map<Id, Buffer>, open': Open, holding': map<Id, string>)
    requires Unsettled(r, open, dirty, excuse) && aim.plan == PlanOf(open, r.names.reserved.Keys, NamesIn(r.buffers))
    requires Settled(ix', buffers', open', holding', aim) && OnlyNames(r.names, r.buffers, open, ix', buffers', open')
    ensures Agrees(r.order, buffers', NamesIn(r.buffers)) <==> Clashes(buffers') == {}
  {
    AfterRecords(r, open, ix', buffers', open');
    AfterNames(r.buffers, aim.plan, buffers', holding');
    SettledAccord(ix', r.order, buffers', r.nextPlace, open', holding', aim);
  }

  lemma SettledAccord(ix: Index, order: seq<Id>, buffers: map<Id, Buffer>, nextPlace: nat, open: Open,
                      holding: map<Id, string>, aim: Aim)
    requires Settled(ix, buffers, open, holding, aim) && holding == NamesIn(buffers)
      && buffers.Keys == aim.plan.before.Keys
    requires OrderOk(order, buffers, ix.files.place, nextPlace) && AllFiled(buffers, ix.files.member, open)
    ensures Agrees(order, buffers, aim.plan.before) <==> Clashes(buffers) == {}
  {
    assert ClashNames(holding, ix.files.member) == Clashes(buffers) by { ClashesAre(buffers, ix.files.member, open); }
    if Clashes(buffers) == {} {
      assert AllFinal(aim.plan, holding) by { NoClashFinal(ix, buffers, open, holding, aim); }
      assert Agrees(order, buffers, aim.plan.before) by {
        SettledAgrees(ix, order, buffers, nextPlace, open, holding, aim.plan);
      }
    } else if Agrees(order, buffers, aim.plan.before) {
      AgreeingClashFree(order, buffers, aim.plan.before);
    }
  }

  lemma AgreeingClashFree(order: seq<Id>, buffers: map<Id, Buffer>, before: map<Id, string>)
    requires Agrees(order, buffers, before) && forall id :: id in buffers ==> id in order
    ensures Clashes(buffers) == {}
  {
    if n :| n in Clashes(buffers) {
      var y, z :| y in buffers && z in buffers && y != z && buffers[y].Origin().Some?
        && buffers[y].name == buffers[z].name && buffers[y].name == n;
      AgreeingDistinct(order, buffers, before, y, z);
    }
  }

  /** Two buffers that clash clashed when settling began, by a name that was excused: it
      is the `<N>` of one's path, which was not marked. */
  lemma ClashBefore(r: Registry, open: Open, dirty: Dirty, excuse: set<string>,
                    ix': Index, buffers': map<Id, Buffer>, open': Open, holding': map<Id, string>, y: Id, z: Id)
    returns (u: string, h: Id, o: Id)
    requires HoldersHold(NamesIn(r.buffers), open)
      && AllGood(open, r.names.reserved.Keys, NamesIn(r.buffers), dirty, excuse)
    requires Settled(ix', buffers', open', holding', AimOf(r.names, open, NamesIn(r.buffers), dirty))
      && holding' == NamesIn(buffers')
    requires AllFiled(buffers', ix'.files.member, open') && OnlyDerivedNames(r.buffers, buffers')
      && Clash(buffers', y, z)
    ensures (h == y && o == z) || (h == z && o == y)
    ensures u in open && !Marked(open, dirty, u) && h in IdsOf(open[u].holders) && o !in IdsOf(open[u].holders)
    ensures IsSuffixed(BaseOf(open, r.names.reserved.Keys, u), buffers'[y].name)
    ensures Clash(r.buffers, y, z) && r.buffers[y].name == buffers'[y].name && buffers'[y].name in excuse
  {
    var aim := AimOf(r.names, open, NamesIn(r.buffers), dirty);
    var v := ClashPath(ix', buffers', open', aim.plan, y);
    u, h, o := ClashRested(r.buffers, open, r.names.reserved.Keys, dirty, excuse, aim, buffers', y, z, v);
  }

  lemma ClashRested(buffers: map<Id, Buffer>, open: Open, res: set<string>, dirty: Dirty, excuse: set<string>, aim: Aim,
                    buffers': map<Id, Buffer>, y: Id, z: Id, v: string) returns (u: string, h: Id, o: Id)
    requires HoldersHold(NamesIn(buffers), open) && AllGood(open, res, NamesIn(buffers), dirty, excuse)
    requires aim.plan == PlanOf(open, res, NamesIn(buffers))
      && aim.spared == SparedPaths(open, res, NamesIn(buffers), dirty)
    requires Ended(aim, NamesIn(buffers'))
    requires OnlyDerivedNames(buffers, buffers') && Clash(buffers', y, z) && v in aim.plan.base
      && y in IdsOf(aim.plan.holders[v])
    ensures (h == y && o == z) || (h == z && o == y)
    ensures u in open && !Marked(open, dirty, u) && h in IdsOf(open[u].holders) && o !in IdsOf(open[u].holders)
    ensures IsSuffixed(BaseOf(open, res, u), buffers'[y].name)
    ensures Clash(buffers, y, z) && buffers[y].name == buffers'[y].name && buffers'[y].name in excuse
  {
    assert Rested(aim, NamesIn(buffers')) by {
      StartRested(open, res, NamesIn(buffers), dirty, excuse, aim, NamesIn(buffers'));
    }
    u, h, o := ClashWas(aim, NamesIn(buffers'), y, z, v);
    assert aim.plan.base[u] == BaseOf(open, res, u) && aim.plan.holders[u] == open[u].holders;
    assert buffers'[y].name in excuse by { WasExcused(open, res, NamesIn(buffers), dirty, excuse, u, h, o); }
    assert buffers'[y].Origin() == buffers[y].Origin();
  }

  lemma StartRested(open: Open, res: set<string>, holding: map<Id, string>, dirty: Dirty, excuse: set<string>, aim: Aim,
                    holding': map<Id, string>)
    requires HoldersHold(holding, open) && AllGood(open, res, holding, dirty, excuse)
    requires aim.plan == PlanOf(open, res, holding) && aim.spared == SparedPaths(open, res, holding, dirty)
      && Ended(aim, holding')
    ensures Rested(aim, holding')
  {
    forall v, w | v in aim.spared && w in aim.plan.base && w != v
      ensures aim.plan.Formed(holding, w) || Calm(aim.plan, holding, v, w)
    {
      if !Marked(open, dirty, w) {
        StartNamed(open, res, holding, dirty, excuse, w);
      }
    }
  }

  lemma ClashPath(ix: Index, buffers: map<Id, Buffer>, open: Open, plan: Plan, y: Id) returns (v: string)
    requires FilesOk(ix.files, open) && PlanFor(plan, open, ix.reserved.Keys)
      && AllFiled(buffers, ix.files.member, open)
    requires y in buffers && buffers[y].Origin().Some?
    ensures v in plan.base && y in IdsOf(plan.holders[v])
  {
    assert FiledRight(buffers[y], y, ix.files.member, open);
    v := MemberHeld(ix.files.member, ix.files.place, open, y);
  }

  lemma MemberHeld(member: map<Id, (string, string)>, place: map<Id, nat>, open: Open, y: Id) returns (v: string)
    requires MembersHold(member, place, open) && y in member
    ensures v in open && y in IdsOf(open[v].holders)
  {
    v := member[y].1;
    var t :| 0 <= t < |open[v].holders| && open[v].holders[t] == (place[y], y);
  }

  lemma WasExcused(open: Open, res: set<string>, holding: map<Id, string>, dirty: Dirty, excuse: set<string>, u: string,
                   h: Id, o: Id)
    requires HoldersHold(holding, open) && AllGood(open, res, holding, dirty, excuse) && u in open
      && !Marked(open, dirty, u)
    requires h in IdsOf(open[u].holders) && o !in IdsOf(open[u].holders) && h in holding && o in holding
      && holding[h] == holding[o]
    requires IsSuffixed(BaseOf(open, res, u), holding[h])
    ensures holding[h] in excuse
  {
    var t :| 0 <= t < |open[u].holders| && open[u].holders[t].1 == h;
    assert NamesAt(holding, open[u].holders)[t] == holding[h];
    OthersHas(holding, open[u].holders, o);
    NotItsOwnSuffix(BaseOf(open, res, u));
    assert Good(open, res, holding, excuse, u);
  }

  lemma {:induction false} SameDerivedIds(order: seq<Id>, a: map<Id, Buffer>, b: map<Id, Buffer>)
    requires SameButNames(a, b)
    ensures DerivedIds(order, a) == DerivedIds(order, b)
  {
    if order != [] {
      SameDerivedIds(order[..|order| - 1], a, b);
    }
  }

  lemma SameExplicitNames(was: map<Id, Buffer>, a: map<Id, Buffer>)
    requires OnlyDerivedNames(was, a)
    ensures ExplicitNames(a) == ExplicitNames(was)
  {
    forall n | n in ExplicitNames(was) ensures n in ExplicitNames(a) {
      var id :| id in was && was[id].Origin().None? && was[id].name == n;
      assert a[id].name == n;
    }
  }

  lemma SameRequests(ids: seq<Id>, a: map<Id, Buffer>, b: map<Id, Buffer>, before: map<Id, string>)
    requires SameButNames(a, b) && forall id :: id in ids ==> id in a && a[id].Origin().Some? && id in before
    ensures forall id :: id in ids ==> id in b && b[id].Origin() == a[id].Origin()
    ensures Requests(ids, a, before) == Requests(ids, b, before)
  {
    forall id | id in ids ensures id in b && b[id].Origin() == a[id].Origin() {
    }
  }

  /** A session's names that agree with naming it all at once are decided by the session
      before the event. */
  lemma OneAgreement(order: seq<Id>, was: map<Id, Buffer>, a: map<Id, Buffer>, b: map<Id, Buffer>)
    requires OnlyDerivedNames(was, a) && OnlyDerivedNames(was, b) && forall id :: id in was ==> id in order
    requires Agrees(order, a, NamesIn(was)) && Agrees(order, b, NamesIn(was))
    ensures a == b
  {
    var ids, before := DerivedIds(order, was), NamesIn(was);
    SameDerivedIds(order, was, a);
    SameDerivedIds(order, was, b);
    SameExplicitNames(was, a);
    SameExplicitNames(was, b);
    SameRequests(ids, was, a, before);
    SameRequests(ids, was, b, before);
    DerivedUnique(Requests(ids, was, before), ExplicitNames(was), NamesOf(ids, a), NamesOf(ids, b));
    forall id | id in was ensures a[id] == b[id] {
      if was[id].Origin().Some? {
        var i :| 0 <= i < |ids| && ids[i] == id;
        assert NamesOf(ids, a)[i] == NamesOf(ids, b)[i];
      }
    }
  }
}

/** The end of every registry event: settling what the event marked, and what the
    session's names then are. */
module RegistryRuns {
  import opened Sealing
  import opened NameText
  import opened BufferNames
  import opened HolderNaming
  import opened SessionNames
  import opened NameIndex
  import opened IndexSteps
  import opened IndexMarks
  import opened IndexFiling
  import opened IndexCounts
  import opened Settling
  import opened SettlePlan
  import opened SettleRun
  import opened RegistrySteps
  import opened SettleLoop
  import opened SettleEnds
  import opened SettleClashes
  import opened SessionAgreement
  import opened EventFiling
  import opened RegistryEvents

  /** An event has filed every buffer, and settling can begin. */
  ghost predicate Pending(r: Registry, open: Open, dirty: Dirty, excuse: set<string>) {
    forall k: nat {:trigger Look(k)} :: Look(k) ==> Unsettled(r, open, dirty, excuse)
  }

  lemma PendingStarts(r: Registry, open: Open, dirty: Dirty, excuse: set<string>)
    requires Pending(r, open, dirty, excuse)
    ensures Startable(r.names, r.buffers, open, NamesIn(r.buffers), dirty, excuse)
  {
    assert Look(0);
    assert BuffersHold(r.buffers, NamesIn(r.buffers));
  }

  /** Where settling ended. */
  ghost predicate Reached(r: Registry, open: Open, dirty: Dirty, r': Registry, open': Open) {
    forall k: nat {:trigger Look(k)} :: Look(k) ==>
      && HoldersHold(NamesIn(r.buffers), open) && AllFiled(r'.buffers, r'.names.files.member, open')
      && Settled(r'.names, r'.buffers, open', NamesIn(r'.buffers), AimOf(r.names, open, NamesIn(r.buffers), dirty))
  }

  /** What an event leaves of a session: its buffers with the names that settling gives
      them, those of the whole session named at once exactly if none clash; and two clash
      only if they did before, by an excused name. */
  ghost predicate Concludes(order: seq<Id>, was: map<Id, Buffer>, excuse: set<string>, now: map<Id, Buffer>) {
    forall k: nat {:trigger Look(k)} :: Look(k) ==>
      && OnlyDerivedNames(was, now)
      && (Agrees(order, now, NamesIn(was)) <==> Clashes(now) == {})
      && Clashes(now) <= excuse
      && forall y, z :: Clash(now, y, z) ==> Clash(was, y, z) && was[y].name == now[y].name
  }

  lemma ConcludesMore(order: seq<Id>, was: map<Id, Buffer>, excuse: set<string>, now: map<Id, Buffer>,
                      more: set<string>)
    requires Concludes(order, was, excuse, now) && excuse <= more
    ensures Concludes(order, was, more, now)
  {
    assert Look(0);
  }

  lemma Concluded(r: Registry, open: Open, dirty: Dirty, excuse: set<string>,
                  ix': Index, buffers': map<Id, Buffer>, open': Open, holding': map<Id, string>)
    requires Pending(r, open, dirty, excuse) && HoldersHold(NamesIn(r.buffers), open)
    requires Settled(ix', buffers', open', holding', AimOf(r.names, open, NamesIn(r.buffers), dirty))
    requires OnlyNames(r.names, r.buffers, open, ix', buffers', open')
    ensures var r' := Registry(buffers', r.order, ix', r.nextPlace);
      Sound(r', open', {}) && Reached(r, open, dirty, r', open') && Concludes(r.order, r.buffers, excuse, buffers')
  {
    var aim := AimOf(r.names, open, NamesIn(r.buffers), dirty);
    assert Unsettled(r, open, dirty, excuse) by { assert Look(0); }
    AfterSettling(r, open, dirty, excuse, aim, ix', buffers', open', holding');
    assert Agrees(r.order, buffers', NamesIn(r.buffers)) <==> Clashes(buffers') == {} by {
      AfterAccord(r, open, dirty, excuse, aim, ix', buffers', open', holding');
    }
    assert AllGood(open, r.names.reserved.Keys, NamesIn(r.buffers), dirty, excuse);
    NoNewClash(r, open, dirty, excuse, ix', buffers', open', holding');
  }

  lemma NoNewClash(r: Registry, open: Open, dirty: Dirty, excuse: set<string>,
                   ix': Index, buffers': map<Id, Buffer>, open': Open, holding': map<Id, string>)
    requires HoldersHold(NamesIn(r.buffers), open)
      && AllGood(open, r.names.reserved.Keys, NamesIn(r.buffers), dirty, excuse)
    requires Settled(ix', buffers', open', holding', AimOf(r.names, open, NamesIn(r.buffers), dirty))
      && holding' == NamesIn(buffers')
    requires AllFiled(buffers', ix'.files.member, open') && OnlyDerivedNames(r.buffers, buffers')
    ensures Clashes(buffers') <= excuse && forall y, z ::
      Clash(buffers', y, z) ==> Clash(r.buffers, y, z) && r.buffers[y].name == buffers'[y].name
  {
    forall y, z | Clash(buffers', y, z) ensures Clash(r.buffers, y, z) && r.buffers[y].name == buffers'[y].name
      && buffers'[y].name in excuse {
      var u, h, o := ClashBefore(r, open, dirty, excuse, ix', buffers', open', holding', y, z);
    }
    ClashesWithin(buffers', excuse);
  }

  lemma ClashesWithin(buffers: map<Id, Buffer>, excuse: set<string>)
    requires forall y, z :: Clash(buffers, y, z) ==> buffers[y].name in excuse
    ensures Clashes(buffers) <= excuse
  {
    forall n | n in Clashes(buffers) ensures n in excuse {
      var y, z :| y in buffers && z in buffers && y != z && buffers[y].Origin().Some?
        && buffers[y].name == buffers[z].name && buffers[y].name == n;
      assert Clash(buffers, y, z);
    }
  }

  lemma ReachedEnds(r: Registry, open: Open, dirty: Dirty, r': Registry, open': Open)
    requires Reached(r, open, dirty, r', open')
    ensures Ended(AimOf(r.names, open, NamesIn(r.buffers), dirty), NamesIn(r'.buffers))
  {
    assert Look(0);
  }

  lemma NamesDecide(was: map<Id, Buffer>, a: map<Id, Buffer>, b: map<Id, Buffer>)
    requires SameButNames(was, a) && SameButNames(was, b) && NamesIn(a) == NamesIn(b)
    ensures a == b
  {
    forall id | id in a ensures id in b && a[id] == b[id] {
      assert NamesIn(a)[id] == NamesIn(b)[id];
    }
  }

  /** What an event leaves is decided by what it filed and marked: whatever the order in
      which settling takes the paths, and whether or not any names clash. */
  lemma OneOutcome(r: Registry, open: Open, dirty: Dirty, a: Registry, openA: Open, b: Registry, openB: Open)
    requires Reached(r, open, dirty, a, openA) && Reached(r, open, dirty, b, openB)
    requires OnlyDerivedNames(r.buffers, a.buffers) && OnlyDerivedNames(r.buffers, b.buffers)
    ensures a.buffers == b.buffers
  {
    ReachedEnds(r, open, dirty, a, openA);
    ReachedEnds(r, open, dirty, b, openB);
    OneEnd(AimOf(r.names, open, NamesIn(r.buffers), dirty), NamesIn(a.buffers), NamesIn(b.buffers));
    NamesDecide(r.buffers, a.buffers, b.buffers);
  }

  lemma ReachedRests(r: Registry, open: Open, dirty: Dirty, excuse: set<string>, r': Registry, open': Open)
    requires Pending(r, open, dirty, excuse) && Reached(r, open, dirty, r', open')
    ensures Ended(AimOf(r.names, open, NamesIn(r.buffers), dirty), NamesIn(r'.buffers))
    ensures Rested(AimOf(r.names, open, NamesIn(r.buffers), dirty), NamesIn(r'.buffers))
  {
    ReachedEnds(r, open, dirty, r', open');
    var holding := NamesIn(r.buffers);
    assert HoldersHold(holding, open) && AllGood(open, r.names.reserved.Keys, holding, dirty, excuse) by {
      assert Look(0);
    }
    StartRested(open, r.names.reserved.Keys, holding, dirty, excuse, AimOf(r.names, open, holding, dirty),
                NamesIn(r'.buffers));
  }

  lemma ReachedMoves(r: Registry, open: Open, dirty: Dirty, r': Registry, open': Open, y: Id)
    requires Reached(r, open, dirty, r', open') && y in r'.buffers && r'.buffers[y].Origin().Some?
    ensures AimOf(r.names, open, NamesIn(r.buffers), dirty).plan.Moves(y)
  {
    assert Look(0);
    var plan := AimOf(r.names, open, NamesIn(r.buffers), dirty).plan;
    var v := ClashPath(r'.names, r'.buffers, open', plan, y);
    assert y in IdsOf(plan.holders[v]);
  }

  /** Two buffers clash after an event exactly if one of them had the other's name for a
      `<N>` of its path, and no change the event makes reaches that path. */
  lemma ClashesExactly(r: Registry, open: Open, dirty: Dirty, excuse: set<string>, r': Registry, open': Open, y: Id,
                       z: Id)
    requires Pending(r, open, dirty, excuse) && Reached(r, open, dirty, r', open')
      && OnlyDerivedNames(r.buffers, r'.buffers)
    requires y in r.buffers && z in r.buffers && y != z && r.buffers[y].Origin().Some?
    ensures var aim := AimOf(r.names, open, NamesIn(r.buffers), dirty);
      Clash(r'.buffers, y, z) <==> (KeepsClash(aim, y, z) || KeepsClash(aim, z, y))
  {
    assert r'.buffers[y].Origin() == r.buffers[y].Origin();
    ReachedRests(r, open, dirty, excuse, r', open');
    ReachedMoves(r, open, dirty, r', open', y);
    ClashExactly(AimOf(r.names, open, NamesIn(r.buffers), dirty), NamesIn(r'.buffers), y, z);
  }

  /** Two buffers clash exactly if one of them had the other's name for a `<N>` of its
      path, and no change reaches that path. */
  ghost predicate ClashesAs(aim: Aim, was: map<Id, Buffer>, now: map<Id, Buffer>) {
    forall k: nat {:trigger Look(k)} :: Look(k) ==>
      forall y, z :: y in was && z in was && y != z && was[y].Origin().Some? ==>
        (Clash(now, y, z) <==> KeepsClash(aim, y, z) || KeepsClash(aim, z, y))
  }

  lemma AllClashes(r: Registry, open: Open, dirty: Dirty, excuse: set<string>, r': Registry, open': Open)
    requires Pending(r, open, dirty, excuse) && Reached(r, open, dirty, r', open')
      && OnlyDerivedNames(r.buffers, r'.buffers)
    ensures ClashesAs(AimOf(r.names, open, NamesIn(r.buffers), dirty), r.buffers, r'.buffers)
  {
    forall y, z | y in r.buffers && z in r.buffers && y != z && r.buffers[y].Origin().Some?
      ensures var aim := AimOf(r.names, open, NamesIn(r.buffers), dirty);
        Clash(r'.buffers, y, z) <==> KeepsClash(aim, y, z) || KeepsClash(aim, z, y)
    {
      ClashesExactly(r, open, dirty, excuse, r', open', y, z);
    }
  }

  /** Settle what an event marked. */
  method Conclude(r: Registry, dirty: Dirty, ghost open: Open, ghost excuse: set<string>)
    returns (r': Registry, ghost open': Open)
    requires Pending(r, open, dirty, excuse)
    ensures Sound(r', open', {}) && r'.order == r.order && Reached(r, open, dirty, r', open')
    ensures Concludes(r.order, r.buffers, excuse, r'.buffers)
  {
    PendingStarts(r, open, dirty, excuse);
    ghost var holding';
    var ix', buffers', rounds;
    ix', buffers', rounds, open', holding' := Settle(r.names, r.buffers, dirty, open, NamesIn(r.buffers), excuse);
    Concluded(r, open, dirty, excuse, ix', buffers', open', holding');
    r' := Registry(buffers', r.order, ix', r.nextPlace);
  }
}

/** The staged, installing and retiring machine does what writing and removing at
    once would (src/autosave.rs): its pending work, carried out on the disk, is the
    synchronous machine's disk, and every pass decides the same. */
module RecoverySync {
  import opened Options
  import opened Recovery
  import opened RecoveryInvariants

  // ----- the synchronous machine -----

  /** Every copy is in place, and every removal done, as soon as it is asked for. */
  datatype Sync = Sync(disk: map<Key, Text>, written: map<Id, (Key, nat)>, owner: map<Key, Id>)

  function SyncRetire(y: Sync, keys: set<Key>): Sync {
    y.(disk := Minus(y.disk, keys), owner := Minus(y.owner, keys))
  }

  function SyncWrite(y: Sync, c: Copy): Sync {
    Sync(y.disk[c.key := c.text], y.written[c.id := (c.key, c.revision)], y.owner[c.key := c.id])
  }

  function SyncWriteAll(y: Sync, writes: seq<Copy>): Sync {
    if writes == [] then y else SyncWrite(SyncWriteAll(y, writes[..|writes| - 1]), writes[|writes| - 1])
  }

  function SyncClear(y: Sync, g: Gathered): Sync {
    var y1 := SyncRetire(y, g.orphans);
    var dead := Dead(y1.written, g.live);
    var y2 := SyncRetire(y1, DeadKeys(y1.written, y1.owner, dead));
    y2.(written := Minus(y2.written, dead))
  }

  function SyncGather(y: Sync, buffers: seq<Buffer>, unreadable: set<Key>): Gathered {
    Gather(buffers, y.written, y.owner, y.disk.Keys - unreadable)
  }

  function SyncPass(y: Sync, buffers: seq<Buffer>): (Sync, Passed) {
    var g := SyncGather(y, buffers, {});
    (SyncWriteAll(SyncClear(y, g), g.writes), Passed(|g.writes|, g.blocked, g.conflicted))
  }

  function SyncAdopt(y: Sync, id: Id, at: Option<(Key, nat)>): Sync {
    match at
    case None => y
    case Some((key, revision)) =>
      var kept := map other | other in y.written && (other == id || y.written[other].0 != key) :: y.written[other];
      y.(written := kept[id := (key, revision)], owner := y.owner[key := id])
  }

  function SyncDiscardPath(y: Sync, key: Key): Sync {
    SyncRetire(y.(written := map id | id in y.written && y.written[id].0 != key :: y.written[id]), {key})
  }

  function SyncDiscardBuffer(y: Sync, id: Id, current: Option<Key>): Sync {
    var keys := (if id in y.written then {y.written[id].0} else {}) + (if current.Some? then {current.value} else {});
    SyncRetire(y, OwnedBy(y.owner, keys, id)).(written := Minus(y.written, {id}))
  }

  // ----- the pending work, carried out -----

  function Rest(cache: Cache): seq<Copy> {
    if cache.installer.Some? && cache.installer.value.met <= |cache.installer.value.copies|
    then cache.installer.value.copies[cache.installer.value.met..] else []
  }

  /** The disk once the installer is done, what retires is removed and what is
      staged is in place. */
  function Ahead(s: State): map<Key, Text> {
    ((s.disk + Texts(Rest(s.cache))) - s.cache.retiring) + Texts(s.cache.staged)
  }

  function Abs(s: State): Sync {
    Sync(Ahead(s), s.cache.written, s.cache.owner)
  }

  /** No copy has failed. */
  ghost predicate Faultless(s: State) {
    s.cache.installer.Some? ==> s.cache.installer.value.failed == [] && !s.cache.installer.value.panicked
  }

  /** With nothing staged or in flight, the disk is the synchronous machine's. */
  lemma QuietAbs(s: State)
    requires Inv(s) && Quiet(s)
    ensures Abs(s).disk == s.disk
  {
    assert KeysOf(Batch(s.cache)) == {};
    assert s.cache.retiring == {};
  }

  lemma RestKeys(s: State)
    requires Inv(s)
    ensures KeysOf(Rest(s.cache)) <= KeysOf(Batch(s.cache))
  {
  }

  /** Removing keys now, or later those a batch still holds. */
  lemma RemovedAhead(disk: map<Key, Text>, rest: map<Key, Text>, retiring: set<Key>, staged: map<Key, Text>,
                     keys: set<Key>, batch: set<Key>)
    requires rest.Keys <= batch
    ensures ((((disk - (keys - keys * batch - {})) + rest) - (retiring + keys * batch)) + (staged - keys)) ==
      (((disk + rest) - retiring) + staged) - keys
  {
  }

  lemma AheadRetire(s: State, keys: set<Key>)
    requires Inv(s)
    ensures Ahead(Retire(s, keys, {})) == Ahead(s) - keys
  {
    TextsKeys(Rest(s.cache));
    RestKeys(s);
    TextsGood(s.cache.staged, keys);
    RemovedAhead(s.disk, Texts(Rest(s.cache)), s.cache.retiring, Texts(s.cache.staged), keys, KeysOf(Batch(s.cache)));
  }

  lemma AbsRetire(s: State, keys: set<Key>, written: map<Id, (Key, nat)>)
    requires Inv(s)
    ensures var s' := Retire(s, keys, {});
      Abs(s'.(cache := s'.cache.(owner := Minus(s'.cache.owner, keys), written := written))) == SyncRetire(Abs(s),
          keys).(written := written)
  {
    AheadRetire(s, keys);
  }

  lemma PutAhead(base: map<Key, Text>, staged: map<Key, Text>, key: Key, text: Text)
    ensures base + (staged - {key})[key := text] == (base + staged)[key := text]
  {
  }

  lemma AbsWriteStaged(s: State, c: Copy)
    ensures Abs(WriteOne(s, c, Staged)) == SyncWrite(Abs(s), c)
  {
    TextsSnoc(Good(s.cache.staged, {c.key}), c);
    TextsGood(s.cache.staged, {c.key});
    PutAhead((s.disk + Texts(Rest(s.cache))) - s.cache.retiring, Texts(s.cache.staged), c.key, c.text);
  }

  lemma AbsWriteNow(s: State, c: Copy)
    requires Inv(s) && Quiet(s)
    ensures Abs(WriteOne(s, c, Now)) == SyncWrite(Abs(s), c)
  {
    QuietAbs(s);
    WriteKeepsQuiet(s, c);
  }

  lemma WriteKeepsQuiet(s: State, c: Copy)
    requires Inv(s) && Quiet(s)
    ensures Ahead(WriteOne(s, c, Now)) == WriteOne(s, c, Now).disk
  {
    assert KeysOf(Batch(s.cache)) == {};
    assert s.cache.retiring == {};
  }

  lemma LandedAhead(disk: map<Key, Text>, rest: map<Key, Text>, key: Key, text: Text)
    ensures disk[key := text] + rest == disk + (map[key := text] + rest)
  {
  }

  /** Copies landing change nothing ahead. */
  lemma AbsLand(s: State)
    requires Inv(s) && Faultless(s)
    ensures Abs(Land(s, true)) == Abs(s) && Faultless(Land(s, true))
  {
    if s.cache.installer.Some? && !s.cache.installer.value.Finished() {
      var i := s.cache.installer.value;
      var c, rest := i.copies[i.met], i.copies[i.met + 1..];
      assert i.copies[i.met..] == [c] + rest;
      TextsCons(c, rest);
      LandedAhead(s.disk, Texts(rest), c.key, c.text);
    }
  }

  lemma AbsFinish(s: State)
    requires Inv(s) && Faultless(s)
    ensures Abs(Finish(s, NoFaults, false)) == Abs(s) && Faultless(Finish(s, NoFaults, false))
    ensures Rest(Finish(s, NoFaults, false).cache) == []
  {
    if s.cache.installer.Some? && !s.cache.installer.value.Finished() {
      var i := s.cache.installer.value;
      GoodAll(i.copies[i.met..]);
      assert i.failed + [] == i.failed;
      NothingAhead(s.disk + Texts(i.copies[i.met..]));
    }
  }

  lemma NothingAhead(disk: map<Key, Text>)
    ensures disk + Texts([]) == disk && disk - {} == disk
  {
  }

  lemma TakenAhead(disk: map<Key, Text>, retiring: set<Key>)
    ensures ((disk - (retiring - {})) + Texts([])) - {} == (disk + Texts([])) - retiring
  {
  }

  lemma AbsTaken(s: State)
    requires Inv(s) && Faultless(s) && s.cache.installer.Some? && Rest(s.cache) == []
    ensures Abs(Taken(s, {}).0) == Abs(s) && Taken(s, {}).0.cache.unreported == s.cache.unreported
      && Taken(s, {}).0.cache.staged == s.cache.staged
  {
    assert Absorbed(s.cache.written, []) == s.cache.written;
    assert Reports([]) == [];
    TakenAhead(s.disk, s.cache.retiring);
  }

  lemma AbsTake(s: State, wait: bool)
    requires Inv(s) && Faultless(s)
    ensures Abs(TakeInstaller(s, wait, NoFaults, false).0) == Abs(s)
      && Faultless(TakeInstaller(s, wait, NoFaults, false).0)
    ensures TakeInstaller(s, wait, NoFaults, false).0.cache.staged == s.cache.staged
  {
    if !(s.cache.installer.None? || (!wait && !s.cache.installer.value.Finished())) {
      AbsFinish(s);
      FinishInv(s, NoFaults, false);
      AbsTaken(Finish(s, NoFaults, false));
    }
  }

  lemma AbsInstall(s: State)
    requires Inv(s) && s.cache.installer.None?
    ensures Abs(InstallStaged(s, NoFaults)) == Abs(s)
  {
    GoodAll(s.cache.staged);
    assert Absorbed(s.cache.written, []) == s.cache.written;
    assert s.cache.retiring == {} by { assert KeysOf(Batch(s.cache)) == {}; }
    NothingAhead(s.disk);
    NothingAhead(s.disk + Texts(s.cache.staged));
  }

  lemma AbsSettle(s: State)
    requires Inv(s) && Faultless(s)
    ensures Abs(Settle(s, NoFaults, false).0) == Abs(s) && Faultless(Settle(s, NoFaults, false).0)
    ensures Abs(SettleQuietly(s, NoFaults, false)) == Abs(s) && Faultless(SettleQuietly(s, NoFaults, false))
  {
    AbsTake(s, true);
    TakeInv(s, true, NoFaults, false);
    AbsInstall(TakeInstaller(s, true, NoFaults, false).0);
  }

  lemma AbsBegin(s: State, spawned: bool)
    requires Inv(s) && Faultless(s)
    ensures Abs(BeginInstall(s, spawned, NoFaults)) == Abs(s) && Faultless(BeginInstall(s, spawned, NoFaults))
  {
    if s.cache.staged != [] && s.cache.installer.None? {
      assert KeysOf(Batch(s.cache)) == {};
      assert s.cache.retiring == {};
      if spawned {
        assert s.cache.staged[0..] == s.cache.staged;
      } else {
        AbsInstall(s);
      }
    }
  }

  // ----- what a pass decides -----

  lemma {:induction false} GatherAgrees(buffers: seq<Buffer>, written: map<Id, (Key, nat)>, owner: map<Key, Id>,
                                        present: set<Key>, present': set<Key>)
    requires forall k :: k !in owner ==> (k in present <==> k in present')
    ensures Gather(buffers, written, owner, present) == Gather(buffers, written, owner, present')
  {
    if buffers != [] {
      GatherAgrees(buffers[..|buffers| - 1], written, owner, present, present');
    }
  }

  /** A key nobody owns has a file on disk that is not retiring exactly if it has one
      ahead. */
  lemma PresentAhead(s: State, unreadable: set<Key>, k: Key)
    requires Inv(s) && k !in s.cache.owner
    ensures k in Present(s, unreadable) <==> k in Ahead(s).Keys - unreadable
  {
    TextsKeys(s.cache.staged);
    TextsKeys(Rest(s.cache));
    assert k !in KeysOf(s.cache.staged);
    assert k in KeysOf(Batch(s.cache)) ==> k in s.cache.retiring;
    RestKeys(s);
  }

  /** A pass decides as the synchronous machine does. */
  lemma GatherAhead(s: State, buffers: seq<Buffer>, unreadable: set<Key>)
    requires Inv(s)
    ensures Gather(buffers, s.cache.written, s.cache.owner, Present(s, unreadable)) == SyncGather(Abs(s), buffers,
        unreadable)
  {
    forall k | k !in s.cache.owner ensures k in Present(s, unreadable) <==> k in Ahead(s).Keys - unreadable {
      PresentAhead(s, unreadable, k);
    }
    GatherAgrees(buffers, s.cache.written, s.cache.owner, Present(s, unreadable), Ahead(s).Keys - unreadable);
  }

  /** However far the installer has got, and whether its copies get in or fail, a
      pass decides the same. */
  lemma LandingDecidesNothing(s: State, ok: bool, buffers: seq<Buffer>, unreadable: set<Key>)
    requires Inv(s)
    ensures var s' := Land(s, ok);
      Gather(buffers, s'.cache.written, s'.cache.owner, Present(s', unreadable)) == Gather(buffers, s.cache.written,
          s.cache.owner, Present(s, unreadable))
  {
    var s' := Land(s, ok);
    forall k | k !in s.cache.owner ensures k in Present(s', unreadable) <==> k in Present(s, unreadable) {
      if s.cache.installer.Some? && !s.cache.installer.value.Finished() {
        var c := s.cache.installer.value.copies[s.cache.installer.value.met];
        assert c in Batch(s.cache);
      }
    }
    GatherAgrees(buffers, s.cache.written, s.cache.owner, Present(s', unreadable), Present(s, unreadable));
  }

  lemma AbsCleared(s: State, g: Gathered)
    requires Inv(s)
    ensures Abs(Cleared(s, g, {})) == SyncClear(Abs(s), g)
  {
    var s0 := Retire(s, g.orphans, {});
    var s1 := s0.(cache := s0.cache.(owner := Minus(s0.cache.owner, g.orphans)));
    assert s1 == s0.(cache := s0.cache.(owner := Minus(s0.cache.owner, g.orphans), written := s.cache.written));
    AbsRetire(s, g.orphans, s.cache.written);
    RetireInv(s, g.orphans, {}, s.cache.written);
    var dead := Dead(s1.cache.written, g.live);
    AbsRetire(s1, DeadKeys(s1.cache.written, s1.cache.owner, dead), Minus(s1.cache.written, dead));
  }

  lemma {:induction false} AbsWriteAll(s: State, writes: seq<Copy>, mode: Mode)
    requires Inv(s) && (mode == Now ==> Quiet(s)) && DistinctKeys(writes) && Claimable(s.cache.owner, writes)
    ensures Abs(WriteAll(s, writes, mode)) == SyncWriteAll(Abs(s), writes)
  {
    if writes != [] {
      var n := |writes| - 1;
      AbsWriteAll(s, writes[..n], mode);
      WriteAllInv(s, writes[..n], mode);
      if mode == Now {
        AbsWriteNow(WriteAll(s, writes[..n], mode), writes[n]);
      } else {
        AbsWriteStaged(WriteAll(s, writes[..n], mode), writes[n]);
      }
    }
  }

  lemma WritableAll(writes: seq<Copy>)
    ensures Writable(writes, {}) == |writes|
  {
  }

  /** A pass, staged or in place, does and decides what the synchronous one does. */
  lemma AbsPass(s: State, buffers: seq<Buffer>, mode: Mode)
    requires Inv(s) && DistinctIds(buffers) && (mode == Now ==> Quiet(s))
    ensures var (s', r) := Pass(s, buffers, mode, NoFaults);
      Abs(s') == SyncPass(Abs(s), buffers).0 && r == SyncPass(Abs(s), buffers).1
  {
    var g := Gather(buffers, s.cache.written, s.cache.owner, Present(s, {}));
    GatherAhead(s, buffers, {});
    GatherIsOk(buffers, s.cache.written, s.cache.owner, Present(s, {}));
    WritableAll(g.writes);
    assert g.writes[..|g.writes|] == g.writes;
    AbsCleared(s, g);
    ClearedInv(s, g, {});
    ClearedOwner(s, g, {});
    AbsWriteAll(Cleared(s, g, {}), g.writes, mode);
  }

  lemma AbsAdopt(s: State, id: Id, at: Option<(Key, nat)>)
    requires Inv(s) && Faultless(s)
    ensures Abs(Adopt(s, id, at, NoFaults, false)) == SyncAdopt(Abs(s), id, at)
      && Faultless(Adopt(s, id, at, NoFaults, false))
  {
    AbsSettle(s);
  }

  lemma AbsDiscardPath(s: State, key: Key)
    requires Inv(s)
    ensures Abs(DiscardPath(s, key, {})) == SyncDiscardPath(Abs(s), key)
  {
    var kept := map x | x in s.cache.written && s.cache.written[x].0 != key :: s.cache.written[x];
    AbsRetire(s, {key}, kept);
  }

  lemma AbsDiscardBuffer(s: State, id: Id, current: Option<Key>)
    requires Inv(s)
    ensures Abs(DiscardBuffer(s, id, current, {})) == SyncDiscardBuffer(Abs(s), id, current)
  {
    var keys := OwnedBy(s.cache.owner, BufferKeys(s, id, current), id);
    AbsRetire(s, keys, Minus(s.cache.written, {id}));
  }
}

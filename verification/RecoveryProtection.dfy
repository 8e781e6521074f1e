/** A buffer passed over as unchanged is protected (src/autosave.rs): whatever
    installs fail, the newest copy at its key is of the revision recorded for it. */
module RecoveryProtection {
  import opened Options
  import opened Recovery
  import opened RecoveryInvariants

  /** What each buffer held at each revision. */
  type History = (Id, nat) -> Text

  /** The newest copy at its key, staged, in the batch or on disk, is `c`. */
  ghost predicate Newest(s: State, c: Copy) {
    && (forall x :: x in s.cache.staged && x.key == c.key ==> x == c)
    && (c.key !in KeysOf(s.cache.staged) ==> forall x :: x in Batch(s.cache) && x.key == c.key ==> x == c)
    && (c.key !in KeysOf(s.cache.staged) + KeysOf(Batch(s.cache)) ==> c.key in s.disk && s.disk[c.key] == c.text)
  }

  /** Each buffer of `written` owns the key recorded for it, and the newest copy there
      is of the revision recorded. */
  ghost predicate Covered(s: State, written: map<Id, (Key, nat)>, history: History) {
    forall id :: id in written ==>
      && written[id].0 in s.cache.owner && s.cache.owner[written[id].0] == id
      && Newest(s, Copy(id, written[id].0, written[id].1, history(id, written[id].1)))
  }

  ghost predicate Protected(s: State, history: History) {
    Covered(s, s.cache.written, history)
  }

  ghost predicate Within(w: map<Id, (Key, nat)>, written: map<Id, (Key, nat)>) {
    forall id :: id in w ==> id in written && w[id] == written[id]
  }

  lemma FewerCovered(s: State, written: map<Id, (Key, nat)>, w: map<Id, (Key, nat)>, history: History)
    requires Covered(s, written, history) && Within(w, written)
    ensures Covered(s, w, history)
  {
  }

  // ----- installing -----

  /** Only the files of keys in the batch differ. */
  lemma BatchCovers(s: State, s': State, history: History)
    requires Protected(s, history)
    requires s'.cache.staged == s.cache.staged && Batch(s'.cache) == Batch(s.cache) && s'.cache.owner == s.cache.owner
      && s'.cache.written == s.cache.written
    requires forall k :: k !in KeysOf(Batch(s.cache)) && k in s.disk ==> k in s'.disk && s'.disk[k] == s.disk[k]
    ensures Protected(s', history)
  {
  }

  lemma LandCovers(s: State, ok: bool, history: History)
    requires Inv(s) && Protected(s, history)
    ensures Protected(Land(s, ok), history)
  {
    if s.cache.installer.Some? && !s.cache.installer.value.Finished() {
      var i := s.cache.installer.value;
      assert i.copies[i.met] in Batch(s.cache);
      BatchCovers(s, Land(s, ok), history);
    }
  }

  lemma FinishElsewhere(i: Installer, disk: map<Key, Text>, bad: set<Key>)
    requires i.met <= |i.copies|
    ensures forall k :: k !in KeysOf(i.copies) && k in disk ==>
      k in disk + Texts(Good(i.copies[i.met..], bad)) && (disk + Texts(Good(i.copies[i.met..], bad)))[k] == disk[k]
  {
    var good := Good(i.copies[i.met..], bad);
    TextsKeys(good);
    GoodIs(i.copies[i.met..], bad);
    assert forall k :: k in Texts(good) ==> k in KeysOf(i.copies);
  }

  lemma FinishCovers(s: State, faults: Faults, panics: bool, history: History)
    requires Inv(s) && Protected(s, history)
    ensures Protected(Finish(s, faults, panics), history)
  {
    if s.cache.installer.Some? && !s.cache.installer.value.Finished() {
      if !panics {
        FinishElsewhere(s.cache.installer.value, s.disk, faults.uninstallable);
      }
      BatchCovers(s, Finish(s, faults, panics), history);
    }
  }

  lemma TakenNewest(s: State, unremovable: set<Key>, c: Copy)
    requires Inv(s) && s.cache.installer.Some? && s.cache.installer.value.Finished()
      && !s.cache.installer.value.panicked
    requires Newest(s, c) && c.key in s.cache.owner && c !in s.cache.installer.value.failed
    ensures Newest(Taken(s, unremovable).0, c)
  {
    var i := s.cache.installer.value;
    if c.key !in KeysOf(s.cache.staged) && c.key in KeysOf(Batch(s.cache)) {
      var x :| x in Batch(s.cache) && x.key == c.key;
      assert i.copies[..i.met] == i.copies;
    }
  }

  lemma TakenCovers(s: State, unremovable: set<Key>, history: History)
    requires Inv(s) && Protected(s, history) && s.cache.installer.Some? && s.cache.installer.value.Finished()
    ensures Protected(Taken(s, unremovable).0, history)
  {
    var s', i := Taken(s, unremovable).0, s.cache.installer.value;
    if !i.panicked {
      forall id | id in s'.cache.written
        ensures Newest(s', Copy(id, s'.cache.written[id].0, s'.cache.written[id].1,
                                history(id, s'.cache.written[id].1)))
      {
        TakenNewest(s, unremovable,
                    Copy(id, s'.cache.written[id].0, s'.cache.written[id].1, history(id, s'.cache.written[id].1)));
      }
    }
  }

  lemma FinishFinishes(s: State, faults: Faults, panics: bool)
    requires s.cache.installer.Some?
    ensures Finish(s, faults, panics).cache.installer.Some?
      && Finish(s, faults, panics).cache.installer.value.Finished()
  {
  }

  lemma TakeCovers(s: State, wait: bool, faults: Faults, panics: bool, history: History)
    requires Inv(s) && Protected(s, history)
    ensures Protected(TakeInstaller(s, wait, faults, panics).0, history)
  {
    if !(s.cache.installer.None? || (!wait && !s.cache.installer.value.Finished())) {
      FinishInv(s, faults, panics);
      FinishCovers(s, faults, panics, history);
      FinishFinishes(s, faults, panics);
      TakenCovers(Finish(s, faults, panics), faults.unremovable, history);
    }
  }

  lemma InstallNewest(s: State, faults: Faults, c: Copy)
    requires Inv(s) && s.cache.installer.None? && Newest(s, c) && c !in Bad(s.cache.staged, faults.uninstallable)
    ensures Newest(InstallStaged(s, faults), c)
  {
    var staged, good := s.cache.staged, Good(s.cache.staged, faults.uninstallable);
    GoodIs(staged, faults.uninstallable);
    TextsKeys(good);
    var disk' := InstallStaged(s, faults).disk;
    assert c.key in disk' && disk'[c.key] == c.text by {
      if c.key in KeysOf(staged) {
        var x :| x in staged && x.key == c.key;
        GoodDistinct(staged, faults.uninstallable);
        TextsAt(good, c);
      } else {
        assert c.key !in KeysOf(good);
      }
    }
  }

  lemma InstallCovers(s: State, faults: Faults, history: History)
    requires Inv(s) && Protected(s, history) && s.cache.installer.None?
    ensures Protected(InstallStaged(s, faults), history)
  {
    var s' := InstallStaged(s, faults);
    forall id | id in s'.cache.written
      ensures Newest(s', Copy(id, s'.cache.written[id].0, s'.cache.written[id].1, history(id, s'.cache.written[id].1)))
    {
      InstallNewest(s, faults,
                    Copy(id, s'.cache.written[id].0, s'.cache.written[id].1, history(id, s'.cache.written[id].1)));
    }
  }

  lemma SettleCovers(s: State, faults: Faults, panics: bool, history: History)
    requires Inv(s) && Protected(s, history)
    ensures Protected(Settle(s, faults, panics).0, history) && Protected(SettleQuietly(s, faults, panics), history)
  {
    var s1 := TakeInstaller(s, true, faults, panics).0;
    assert Inv(s1) && s1.cache.installer.None? by { TakeInv(s, true, faults, panics); }
    assert Protected(s1, history) by { TakeCovers(s, true, faults, panics, history); }
    InstallCovers(s1, faults, history);
    ReportsCover(InstallStaged(s1, faults), Settle(s, faults, panics).0.cache.unreported, history);
    ReportsCover(InstallStaged(s1, faults), SettleQuietly(s, faults, panics).cache.unreported, history);
  }

  lemma ReportsCover(s: State, unreported: seq<Report>, history: History)
    requires Protected(s, history)
    ensures Protected(s.(cache := s.cache.(unreported := unreported)), history)
  {
  }

  lemma BeginCovers(s: State, spawned: bool, faults: Faults, history: History)
    requires Inv(s) && Protected(s, history)
    ensures Protected(BeginInstall(s, spawned, faults), history)
  {
    if s.cache.staged != [] && s.cache.installer.None? && !spawned {
      InstallCovers(s, faults, history);
    }
  }

  // ----- retiring and writing -----

  lemma RetireCovers(s: State, keys: set<Key>, unremovable: set<Key>, written: map<Id, (Key, nat)>,
                     w: map<Id, (Key, nat)>, history: History)
    requires Inv(s) && Covered(s, w, history) && forall id :: id in w ==> w[id].0 !in keys
    ensures var s' := Retire(s, keys, unremovable);
      Covered(s'.(cache := s'.cache.(owner := Minus(s'.cache.owner, keys), written := written)), w, history)
  {
    GoodIs(s.cache.staged, keys);
    var s' := Retire(s, keys, unremovable);
    forall c: Copy | c.key !in keys && Newest(s, c) ensures Newest(s', c) {
      assert c.key in KeysOf(s'.cache.staged) <==> c.key in KeysOf(s.cache.staged) by {
        if x :| x in s.cache.staged && x.key == c.key {
          assert x in s'.cache.staged;
        }
      }
    }
  }

  lemma WrittenNewest(s: State, c: Copy, mode: Mode)
    requires mode == Now ==> Quiet(s)
    ensures Newest(WriteOne(s, c, mode), c)
  {
    GoodIs(s.cache.staged, {c.key});
    if mode == Staged {
      assert c in WriteOne(s, c, mode).cache.staged;
    }
  }

  lemma WrittenElsewhere(s: State, c: Copy, mode: Mode, x: Copy)
    requires (mode == Now ==> Quiet(s)) && x.key != c.key && Newest(s, x)
    ensures Newest(WriteOne(s, c, mode), x)
  {
    GoodIs(s.cache.staged, {c.key});
    var s' := WriteOne(s, c, mode);
    if mode == Staged {
      assert x.key in KeysOf(s'.cache.staged) <==> x.key in KeysOf(s.cache.staged) by {
        if y :| y in s.cache.staged && y.key == x.key {
          assert y in s'.cache.staged;
        }
      }
    }
  }

  lemma WriteCovers(s: State, c: Copy, mode: Mode, w: map<Id, (Key, nat)>, history: History)
    requires Inv(s) && (mode == Now ==> Quiet(s)) && Covered(s, w, history) && c.text == history(c.id, c.revision)
    requires forall id :: id in w ==> w[id].0 != c.key
    ensures Covered(WriteOne(s, c, mode), w[c.id := (c.key, c.revision)], history)
  {
    WrittenNewest(s, c, mode);
    var s', w' := WriteOne(s, c, mode), w[c.id := (c.key, c.revision)];
    forall id | id in w'
      ensures w'[id].0 in s'.cache.owner && s'.cache.owner[w'[id].0] == id
        && Newest(s', Copy(id, w'[id].0, w'[id].1, history(id, w'[id].1)))
    {
      if id != c.id {
        WrittenElsewhere(s, c, mode, Copy(id, w[id].0, w[id].1, history(id, w[id].1)));
      }
    }
  }

  // ----- a pass -----

  /** The entries a pass that writes `done` leaves alone: of the other live buffers. */
  ghost function Untouched(written: map<Id, (Key, nat)>, live: set<Id>, done: seq<Copy>): map<Id, (Key, nat)> {
    map id | id in written && id in live && !(exists c :: c in done && c.id == id) :: written[id]
  }

  /** A copy of a buffer whose path moved since its last one. */
  ghost predicate IsMoved(c: Copy, written: map<Id, (Key, nat)>) {
    c.id in written && written[c.id].0 != c.key
  }

  ghost predicate NoneMoved(g: Gathered, n: nat, written: map<Id, (Key, nat)>) {
    forall i :: n <= i < |g.writes| ==> !IsMoved(g.writes[i], written)
  }

  lemma UntouchedClear(s: State, g: Gathered, n: nat, present: set<Key>, history: History, id: Id)
    requires GatherOk(g, s.cache.written, s.cache.owner, present) && Protected(s, history) && n <= |g.writes|
      && NoneMoved(g, n, s.cache.written)
    requires id in Untouched(s.cache.written, g.live, g.writes[..n])
    ensures var k := s.cache.written[id].0;
      && k !in g.orphans && (forall c :: c in g.writes[..n] ==> c.key != k)
      && forall d :: d in s.cache.written && d !in g.live ==> s.cache.written[d].0 != k
  {
    var k := s.cache.written[id].0;
    forall c | c in g.writes && IsMoved(c, s.cache.written) ensures s.cache.written[c.id].0 != k {
      var i :| 0 <= i < |g.writes| && g.writes[i] == c;
      assert i < n && c in g.writes[..n];
    }
    forall c | c in g.writes[..n] ensures c.key != k {
      assert c in g.writes;
    }
  }

  lemma ClearedCovers(s: State, g: Gathered, n: nat, present: set<Key>, unremovable: set<Key>, history: History)
    requires Inv(s) && GatherOk(g, s.cache.written, s.cache.owner, present) && Protected(s, history) && n <= |g.writes|
      && NoneMoved(g, n, s.cache.written)
    ensures Covered(Cleared(s, g, unremovable), Untouched(s.cache.written, g.live, g.writes[..n]), history)
  {
    var w := Untouched(s.cache.written, g.live, g.writes[..n]);
    FewerCovered(s, s.cache.written, w, history);
    forall id | id in w
      ensures w[id].0 !in g.orphans && forall d ::
        d in s.cache.written && d !in g.live ==> s.cache.written[d].0 != w[id].0
    {
      UntouchedClear(s, g, n, present, history, id);
    }
    var s0 := Retire(s, g.orphans, unremovable);
    var s1 := s0.(cache := s0.cache.(owner := Minus(s0.cache.owner, g.orphans)));
    assert s1 == s0.(cache := s0.cache.(owner := Minus(s0.cache.owner, g.orphans), written := s.cache.written));
    RetireInv(s, g.orphans, unremovable, s.cache.written);
    RetireCovers(s, g.orphans, unremovable, s.cache.written, w, history);
    var dead := Dead(s1.cache.written, g.live);
    RetireCovers(s1, DeadKeys(s1.cache.written, s1.cache.owner, dead), unremovable, Minus(s1.cache.written, dead), w,
                 history);
  }

  /** The entries once `writes` are written. */
  ghost function Recorded(w: map<Id, (Key, nat)>, writes: seq<Copy>): map<Id, (Key, nat)> {
    if writes == [] then w
    else Recorded(w, writes[..|writes| - 1])[writes[|writes| - 1].id := (writes[|writes| - 1].key,
        writes[|writes| - 1].revision)]
  }

  lemma {:induction false} RecordedKeys(w: map<Id, (Key, nat)>, writes: seq<Copy>, id: Id)
    requires id in Recorded(w, writes)
    ensures (id in w && Recorded(w, writes)[id] == w[id]) || exists c ::
      c in writes && c.key == Recorded(w, writes)[id].0
  {
    if writes != [] {
      var n := |writes| - 1;
      if id == writes[n].id {
        assert writes[n] in writes;
      } else {
        RecordedKeys(w, writes[..n], id);
        if c :| c in writes[..n] && c.key == Recorded(w, writes)[id].0 {
          assert c in writes;
        }
      }
    }
  }

  lemma {:induction false} WriteAllCovers(s: State, writes: seq<Copy>, mode: Mode, w: map<Id, (Key, nat)>,
                                          history: History)
    requires Inv(s) && (mode == Now ==> Quiet(s)) && DistinctKeys(writes) && Claimable(s.cache.owner, writes)
      && Covered(s, w, history)
    requires forall c :: c in writes ==> c.text == history(c.id, c.revision)
    requires forall id, c :: id in w && c in writes ==> w[id].0 != c.key
    ensures Covered(WriteAll(s, writes, mode), Recorded(w, writes), history)
  {
    if writes != [] {
      var n := |writes| - 1;
      var s', w' := WriteAll(s, writes[..n], mode), Recorded(w, writes[..n]);
      WriteAllInv(s, writes[..n], mode);
      WriteAllCovers(s, writes[..n], mode, w, history);
      forall id | id in w' ensures w'[id].0 != writes[n].key {
        RecordedKeys(w, writes[..n], id);
        assert writes[n] in writes;
      }
      WriteCovers(s', writes[n], mode, w', history);
    }
  }

  lemma {:induction false} WriteAllWritten(s: State, writes: seq<Copy>, mode: Mode)
    ensures WriteAll(s, writes, mode).cache.written == Recorded(s.cache.written, writes)
  {
    if writes != [] {
      WriteAllWritten(s, writes[..|writes| - 1], mode);
    }
  }

  /** Entries for buffers that are written again do not matter. */
  lemma {:induction false} RecordedOver(w: map<Id, (Key, nat)>, w': map<Id, (Key, nat)>, writes: seq<Copy>)
    requires forall id :: id in w && !(exists c :: c in writes && c.id == id) ==> id in w' && w'[id] == w[id]
    ensures Within(Recorded(w, writes), Recorded(w', writes))
  {
    forall id | id in Recorded(w, writes) ensures id in Recorded(w', writes)
      && Recorded(w', writes)[id] == Recorded(w, writes)[id] {
      RecordedAt(w, w', writes, id);
    }
  }

  lemma {:induction false} RecordedAt(w: map<Id, (Key, nat)>, w': map<Id, (Key, nat)>, writes: seq<Copy>, id: Id)
    requires id in Recorded(w, writes)
    requires id in w && !(exists c :: c in writes && c.id == id) ==> id in w' && w'[id] == w[id]
    ensures id in Recorded(w', writes) && Recorded(w', writes)[id] == Recorded(w, writes)[id]
  {
    if writes != [] {
      var n := |writes| - 1;
      assert writes == writes[..n] + [writes[n]];
      if id != writes[n].id {
        RecordedAt(w, w', writes[..n], id);
      }
    }
  }

  ghost predicate TextsFit(buffers: seq<Buffer>, history: History) {
    forall b :: b in buffers ==> b.text == history(b.id, b.revision)
  }

  lemma {:induction false} GatherTexts(buffers: seq<Buffer>, written: map<Id, (Key, nat)>, owner: map<Key, Id>,
                                       present: set<Key>, history: History)
    requires TextsFit(buffers, history)
    ensures forall c :: c in Gather(buffers, written, owner, present).writes ==> c.text == history(c.id, c.revision)
  {
    if buffers != [] {
      GatherTexts(buffers[..|buffers| - 1], written, owner, present, history);
    }
  }

  /** What a pass gathers. */
  function Gathering(s: State, buffers: seq<Buffer>, faults: Faults): Gathered {
    Gather(buffers, s.cache.written, s.cache.owner, Present(s, faults.unreadable))
  }

  /** A pass after which no moved buffer's copy is left unwritten. */
  lemma PassCoversMoved(s: State, buffers: seq<Buffer>, mode: Mode, faults: Faults, history: History)
    requires Inv(s) && Protected(s, history) && DistinctIds(buffers) && TextsFit(buffers, history)
      && (mode == Now ==> Quiet(s))
    requires var g := Gathering(s, buffers, faults);
      NoneMoved(g, Writable(g.writes, faults.unwritable), s.cache.written)
    ensures Protected(Pass(s, buffers, mode, faults).0, history)
  {
    var present, g := Present(s, faults.unreadable), Gathering(s, buffers, faults);
    var n := Writable(g.writes, faults.unwritable);
    var done := g.writes[..n];
    GatherIsOk(buffers, s.cache.written, s.cache.owner, present);
    GatherTexts(buffers, s.cache.written, s.cache.owner, present, history);
    var s1, w := Cleared(s, g, faults.unremovable), Untouched(s.cache.written, g.live, done);
    assert Covered(s1, w, history) by { ClearedCovers(s, g, n, present, faults.unremovable, history); }
    assert Inv(s1) by { ClearedInv(s, g, faults.unremovable); }
    ClearedOwner(s, g, faults.unremovable);
    forall id, c | id in w && c in done ensures w[id].0 != c.key {
      UntouchedClear(s, g, n, present, history, id);
    }
    WriteAllCovers(s1, done, mode, w, history);
    WriteAllWritten(s1, done, mode);
    RecordedOver(s1.cache.written, w, done);
    FewerCovered(WriteAll(s1, done, mode), Recorded(w, done), Recorded(s1.cache.written, done), history);
  }

  lemma {:induction false} WriteAllOwner(s: State, writes: seq<Copy>, mode: Mode, k: Key)
    requires k !in s.cache.owner && forall c :: c in writes ==> c.key != k
    ensures k !in WriteAll(s, writes, mode).cache.owner
  {
    if writes != [] {
      WriteAllOwner(s, writes[..|writes| - 1], mode, k);
    }
  }

  lemma {:induction false} RecordedStays(w: map<Id, (Key, nat)>, writes: seq<Copy>, id: Id)
    requires id in w && forall c :: c in writes ==> c.id != id
    ensures id in Recorded(w, writes) && Recorded(w, writes)[id] == w[id]
  {
    if writes != [] {
      RecordedStays(w, writes[..|writes| - 1], id);
    }
  }

  /** No earlier write is of a moved buffer, or to the key it moved from. */
  lemma LaterApart(g: Gathered, written: map<Id, (Key, nat)>, owner: map<Key, Id>, present: set<Key>, n: nat, i: nat)
    requires GatherOk(g, written, owner, present) && n <= i < |g.writes| && IsMoved(g.writes[i], written)
    requires var c := g.writes[i]; written[c.id].0 in owner && owner[written[c.id].0] == c.id
    ensures var c := g.writes[i];
      && c.id in g.live && written[c.id].0 in g.orphans
      && forall x :: x in g.writes[..n] ==> x.id != c.id && x.key != written[c.id].0
  {
    var c := g.writes[i];
    assert c in g.writes;
    forall x | x in g.writes[..n] ensures x.id != c.id && x.key != written[c.id].0 {
      var j :| 0 <= j < n && g.writes[j] == x;
      assert x in g.writes && g.writes[j].key != g.writes[i].key;
    }
  }

  /** A moved buffer's copy left unwritten leaves the buffer recorded at a key that
      was retired. */
  lemma MovedUncovered(s: State, buffers: seq<Buffer>, mode: Mode, faults: Faults, history: History, i: nat)
    requires Inv(s) && Protected(s, history) && DistinctIds(buffers)
    requires var g := Gathering(s, buffers, faults);
      Writable(g.writes, faults.unwritable) <= i < |g.writes| && IsMoved(g.writes[i], s.cache.written)
    ensures !Protected(Pass(s, buffers, mode, faults).0, history)
  {
    var present, g := Present(s, faults.unreadable), Gathering(s, buffers, faults);
    var n := Writable(g.writes, faults.unwritable);
    var done, c := g.writes[..n], g.writes[i];
    GatherIsOk(buffers, s.cache.written, s.cache.owner, present);
    var s1, k := Cleared(s, g, faults.unremovable), s.cache.written[c.id].0;
    assert c.id in g.live && k in g.orphans && forall x :: x in done ==> x.id != c.id && x.key != k by {
      LaterApart(g, s.cache.written, s.cache.owner, present, n, i);
    }
    assert k !in s1.cache.owner;
    WriteAllOwner(s1, done, mode, k);
    WriteAllWritten(s1, done, mode);
    assert c.id in s1.cache.written && s1.cache.written[c.id] == s.cache.written[c.id];
    RecordedStays(s1.cache.written, done, c.id);
  }

  /** Protection survives a pass exactly if no moved buffer's copy is left unwritten:
      the pass has retired that buffer's old key already. */
  lemma PassCoversExactly(s: State, buffers: seq<Buffer>, mode: Mode, faults: Faults, history: History)
    requires Inv(s) && Protected(s, history) && DistinctIds(buffers) && TextsFit(buffers, history)
      && (mode == Now ==> Quiet(s))
    ensures var g := Gathering(s, buffers, faults);
      Protected(Pass(s, buffers, mode, faults).0, history) <==>
        NoneMoved(g, Writable(g.writes, faults.unwritable), s.cache.written)
  {
    var g := Gathering(s, buffers, faults);
    if NoneMoved(g, Writable(g.writes, faults.unwritable), s.cache.written) {
      PassCoversMoved(s, buffers, mode, faults, history);
    } else {
      var i :| Writable(g.writes, faults.unwritable) <= i < |g.writes| && IsMoved(g.writes[i], s.cache.written);
      MovedUncovered(s, buffers, mode, faults, history, i);
    }
  }

  // ----- claims -----

  /** Adopting a recovery file protects its buffer, if the file is what it holds. */
  lemma AdoptCovers(s: State, id: Id, at: Option<(Key, nat)>, faults: Faults, panics: bool, history: History)
    requires Inv(s) && Protected(s, history)
    requires at.Some? ==>
      var disk := SettleQuietly(s, faults, panics).disk;
        at.value.0 in disk && disk[at.value.0] == history(id, at.value.1)
    ensures Protected(Adopt(s, id, at, faults, panics), history)
  {
    SettleInv(s, faults, panics);
    SettleCovers(s, faults, panics, history);
  }

  lemma DiscardPathCovers(s: State, key: Key, unremovable: set<Key>, history: History)
    requires Inv(s) && Protected(s, history)
    ensures Protected(DiscardPath(s, key, unremovable), history)
  {
    var kept := map x | x in s.cache.written && s.cache.written[x].0 != key :: s.cache.written[x];
    FewerCovered(s, s.cache.written, kept, history);
    RetireCovers(s, {key}, unremovable, kept, kept, history);
  }

  lemma DiscardBufferCovers(s: State, id: Id, current: Option<Key>, unremovable: set<Key>, history: History)
    requires Inv(s) && Protected(s, history)
    ensures Protected(DiscardBuffer(s, id, current, unremovable), history)
  {
    var keys, kept := OwnedBy(s.cache.owner, BufferKeys(s, id, current), id), Minus(s.cache.written, {id});
    FewerCovered(s, s.cache.written, kept, history);
    RetireCovers(s, keys, unremovable, kept, kept, history);
  }
}

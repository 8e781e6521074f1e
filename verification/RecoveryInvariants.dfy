/** What every autosave operation keeps (src/autosave.rs): whatever fails, the staged
    copies, the installer's batch, the retiring keys and the owners fit together. */
module RecoveryInvariants {
  import opened Options
  import opened Recovery

  // ----- copies by key -----

  ghost predicate DistinctKeys(copies: seq<Copy>) {
    forall i, j :: 0 <= i < j < |copies| ==> copies[i].key != copies[j].key
  }

  lemma {:induction false} GoodIs(copies: seq<Copy>, bad: set<Key>)
    ensures forall c :: c in Good(copies, bad) <==> c in copies && c.key !in bad
    ensures forall c :: c in Bad(copies, bad) <==> c in copies && c.key in bad
  {
    if copies != [] {
      var n := |copies| - 1;
      GoodIs(copies[..n], bad);
      assert copies == copies[..n] + [copies[n]];
    }
  }

  lemma {:induction false} TextsKeys(copies: seq<Copy>)
    ensures Texts(copies).Keys == KeysOf(copies)
  {
    if copies != [] {
      var n := |copies| - 1;
      TextsKeys(copies[..n]);
      assert copies == copies[..n] + [copies[n]];
    }
  }

  lemma {:induction false} TextsGood(copies: seq<Copy>, bad: set<Key>)
    ensures Texts(Good(copies, bad)) == Texts(copies) - bad
  {
    if copies != [] {
      var n := |copies| - 1;
      TextsGood(copies[..n], bad);
      PutLess(Texts(copies[..n]), copies[n].key, copies[n].text, bad);
      if copies[n].key in bad {
        assert Good(copies, bad) == Good(copies[..n], bad);
      } else {
        TextsSnoc(Good(copies[..n], bad), copies[n]);
      }
    }
  }

  lemma PutLess(texts: map<Key, Text>, key: Key, text: Text, bad: set<Key>)
    ensures texts[key := text] - bad == if key in bad then texts - bad else (texts - bad)[key := text]
  {
  }

  lemma {:induction false} TextsAppend(a: seq<Copy>, b: seq<Copy>)
    ensures Texts(a + b) == Texts(a) + Texts(b)
  {
    if b == [] {
      assert a + b == a;
    } else {
      var n := |b| - 1;
      TextsAppend(a, b[..n]);
      assert (a + b)[..|a + b| - 1] == a + b[..n];
    }
  }

  lemma TextsSnoc(a: seq<Copy>, c: Copy)
    ensures Texts(a + [c]) == Texts(a)[c.key := c.text]
  {
    assert (a + [c])[..|a|] == a;
  }

  lemma TextsCons(c: Copy, rest: seq<Copy>)
    ensures Texts([c] + rest) == map[c.key := c.text] + Texts(rest)
  {
    TextsAppend([c], rest);
    TextsSnoc([], c);
    assert [] + [c] == [c];
  }

  lemma {:induction false} TextsAt(copies: seq<Copy>, c: Copy)
    requires DistinctKeys(copies) && c in copies
    ensures c.key in Texts(copies) && Texts(copies)[c.key] == c.text
  {
    var n := |copies| - 1;
    if copies[n] != c {
      TextsAt(copies[..n], c);
      var i :| 0 <= i < |copies| && copies[i] == c;
      assert copies[i].key != copies[n].key;
    }
  }

  lemma {:induction false} GoodDistinct(copies: seq<Copy>, bad: set<Key>)
    requires DistinctKeys(copies)
    ensures DistinctKeys(Good(copies, bad))
  {
    if copies != [] {
      var n := |copies| - 1;
      GoodDistinct(copies[..n], bad);
      GoodIs(copies[..n], bad);
      var rest, good := Good(copies[..n], bad), Good(copies, bad);
      forall i, j | 0 <= i < j < |good| ensures good[i].key != good[j].key {
        if j == |rest| {
          assert rest[i] in copies[..n];
        }
      }
    }
  }

  lemma {:induction false} GoodAll(copies: seq<Copy>)
    ensures Good(copies, {}) == copies && Bad(copies, {}) == []
  {
    if copies != [] {
      GoodAll(copies[..|copies| - 1]);
      assert copies == copies[..|copies| - 1] + [copies[|copies| - 1]];
    }
  }

  // ----- what every operation keeps -----

  /** The batch: what it has met is at its key, or failed. */
  ghost predicate BatchOk(i: Installer, disk: map<Key, Text>) {
    && DistinctKeys(i.copies) && i.met <= |i.copies|
    && (forall c :: c in i.failed ==> c in i.copies[..i.met])
    && (forall c :: c in i.copies[..i.met] ==> c in i.failed || (c.key in disk && disk[c.key] == c.text))
  }

  /** At most one staged copy a key, its buffer owning the key; a key in the batch is
      owned or retiring; and a key both owned and retiring has a copy staged. */
  ghost predicate Inv(s: State) {
    var c := s.cache;
    && DistinctKeys(c.staged)
    && (forall x :: x in c.staged ==> x.key in c.owner && c.owner[x.key] == x.id)
    && (c.installer.Some? ==> BatchOk(c.installer.value, s.disk))
    && (forall x :: x in Batch(c) ==> x.key in c.retiring || x.key in c.owner)
    && c.retiring <= KeysOf(Batch(c))
    && (forall k :: k in c.retiring && k in c.owner ==> k in KeysOf(c.staged))
  }

  lemma RetireInv(s: State, keys: set<Key>, unremovable: set<Key>, written: map<Id, (Key, nat)>)
    requires Inv(s)
    ensures var s' := Retire(s, keys, unremovable);
      Inv(s'.(cache := s'.cache.(owner := Minus(s'.cache.owner, keys), written := written)))
  {
    GoodDistinct(s.cache.staged, keys);
    GoodIs(s.cache.staged, keys);
  }

  lemma WriteInv(s: State, c: Copy, mode: Mode)
    requires Inv(s) && (mode == Now ==> s.cache.staged == [] && s.cache.installer.None?)
    requires c.key in s.cache.owner ==> s.cache.owner[c.key] == c.id
    ensures Inv(WriteOne(s, c, mode))
  {
    GoodDistinct(s.cache.staged, {c.key});
    GoodIs(s.cache.staged, {c.key});
  }

  lemma LandInv(s: State, ok: bool)
    requires Inv(s)
    ensures Inv(Land(s, ok))
  {
    if s.cache.installer.Some? && !s.cache.installer.value.Finished() {
      var i := s.cache.installer.value;
      var c := i.copies[i.met];
      assert i.copies[..i.met + 1] == i.copies[..i.met] + [c];
      var s' := Land(s, ok);
      var i' := s'.cache.installer.value;
      forall x | x in i'.copies[..i'.met] ensures x in i'.failed || (x.key in s'.disk && s'.disk[x.key] == x.text) {
        if x in i.copies[..i.met] {
          var k :| 0 <= k < i.met && i.copies[k] == x;
          assert i.copies[k].key != c.key;
        }
      }
    }
  }

  lemma PanicInv(s: State)
    requires Inv(s)
    ensures Inv(Panic(s))
  {
  }

  lemma FinishInv(s: State, faults: Faults, panics: bool)
    requires Inv(s)
    ensures Inv(Finish(s, faults, panics))
  {
    if s.cache.installer.Some? && !s.cache.installer.value.Finished() {
      var i, s' := s.cache.installer.value, Finish(s, faults, panics);
      assert s'.cache.installer.Some? && BatchOk(s'.cache.installer.value, s'.disk) by {
        if !panics {
          BatchFinishes(i, s.disk, faults.uninstallable);
        }
      }
      SameBatch(s, s');
    }
  }

  lemma SameBatch(s: State, s': State)
    requires Inv(s) && s.cache.installer.Some? && s'.cache.installer.Some? && BatchOk(s'.cache.installer.value, s'.disk)
    requires s'.cache == s.cache.(installer := s'.cache.installer)
    requires s'.cache.installer.value.copies == s.cache.installer.value.copies
    ensures Inv(s')
  {
    assert Batch(s'.cache) == Batch(s.cache);
  }

  lemma BatchFinishes(i: Installer, disk: map<Key, Text>, bad: set<Key>)
    requires BatchOk(i, disk)
    ensures var rest := i.copies[i.met..];
      BatchOk(i.(met := |i.copies|, failed := i.failed + Bad(rest, bad)), disk + Texts(Good(rest, bad)))
  {
    var rest := i.copies[i.met..];
    var good := Good(rest, bad);
    assert i.copies == i.copies[..i.met] + rest;
    assert i.copies[..|i.copies|] == i.copies;
    GoodIs(rest, bad);
    GoodDistinct(rest, bad);
    TextsKeys(good);
    var disk', failed := disk + Texts(good), i.failed + Bad(rest, bad);
    forall c | c in i.copies ensures c in failed || (c.key in disk' && disk'[c.key] == c.text) {
      if c in good {
        TextsAt(good, c);
      } else if c in i.copies[..i.met] && c !in i.failed {
        MetElsewhere(i, c);
      }
    }
  }

  /** What the installer has met is not among what it has yet to meet. */
  lemma MetElsewhere(i: Installer, c: Copy)
    requires DistinctKeys(i.copies) && i.met <= |i.copies| && c in i.copies[..i.met]
    ensures c.key !in KeysOf(i.copies[i.met..])
  {
    var k :| 0 <= k < i.met && i.copies[k] == c;
    forall x | x in i.copies[i.met..] ensures x.key != c.key {
      var j :| i.met <= j < |i.copies| && i.copies[j] == x;
    }
  }

  lemma TakenInv(s: State, unremovable: set<Key>)
    requires Inv(s) && s.cache.installer.Some?
    ensures Inv(Taken(s, unremovable).0)
  {
  }

  lemma TakeInv(s: State, wait: bool, faults: Faults, panics: bool)
    requires Inv(s)
    ensures Inv(TakeInstaller(s, wait, faults, panics).0)
    ensures wait ==> TakeInstaller(s, wait, faults, panics).0.cache.installer.None?
  {
    if !(s.cache.installer.None? || (!wait && !s.cache.installer.value.Finished())) {
      FinishInv(s, faults, panics);
      TakenInv(Finish(s, faults, panics), faults.unremovable);
    }
  }

  lemma InstallInv(s: State, faults: Faults)
    requires Inv(s) && s.cache.installer.None?
    ensures Inv(InstallStaged(s, faults)) && InstallStaged(s, faults).cache.staged == []
      && InstallStaged(s, faults).cache.installer.None?
  {
  }

  /** Nothing is staged or in flight. */
  ghost predicate Quiet(s: State) {
    s.cache.staged == [] && s.cache.installer.None?
  }

  lemma SettleInv(s: State, faults: Faults, panics: bool)
    requires Inv(s)
    ensures Inv(Settle(s, faults, panics).0) && Quiet(Settle(s, faults, panics).0)
    ensures Inv(SettleQuietly(s, faults, panics)) && Quiet(SettleQuietly(s, faults, panics))
  {
    TakeInv(s, true, faults, panics);
    InstallInv(TakeInstaller(s, true, faults, panics).0, faults);
  }

  lemma BeginInv(s: State, spawned: bool, faults: Faults)
    requires Inv(s)
    ensures Inv(BeginInstall(s, spawned, faults))
  {
    if s.cache.staged != [] && s.cache.installer.None? && !spawned {
      InstallInv(s, faults);
    }
  }

  // ----- a pass keeps it -----

  /** A buffer is written once. */
  ghost predicate OneEach(writes: seq<Copy>) {
    forall c, x :: c in writes && x in writes && c.id == x.id ==> c == x
  }

  /** What the copies a pass gathered are: one a key and one a buffer, each of a key
      its buffer owns or nobody does. */
  ghost predicate GatherOk(g: Gathered, written: map<Id, (Key, nat)>, owner: map<Key, Id>, present: set<Key>) {
    && DistinctKeys(g.writes)
    && OneEach(g.writes)
    && Queued(g.writes, g.queued) && (forall c :: c in g.writes ==> c.id in g.live)
    && (forall c :: c in g.writes ==> if c.key in owner then owner[c.key] == c.id else c.key !in present)
    && OrphansOk(g.writes, g.orphans, written)
  }

  lemma WritesMore(writes: seq<Copy>, c: Copy)
    requires DistinctKeys(writes) && OneEach(writes) && forall x :: x in writes ==> x.key != c.key && x.id != c.id
    ensures DistinctKeys(writes + [c]) && OneEach(writes + [c])
  {
    var more := writes + [c];
    forall i, j | 0 <= i < j < |more| ensures more[i].key != more[j].key {
      assert writes[i] in writes;
    }
  }

  /** A key is queued for each write, and for nothing else. */
  ghost predicate Queued(writes: seq<Copy>, queued: map<Key, Id>) {
    && (forall c :: c in writes ==> c.key in queued && queued[c.key] == c.id)
    && (forall k :: k in queued ==> exists c :: c in writes && c.key == k)
  }

  lemma QueuedMore(writes: seq<Copy>, queued: map<Key, Id>, c: Copy)
    requires Queued(writes, queued) && forall x :: x in writes ==> x.key != c.key
    ensures Queued(writes + [c], queued[c.key := c.id])
  {
    var writes', queued' := writes + [c], queued[c.key := c.id];
    forall k | k in queued' ensures exists x :: x in writes' && x.key == k {
      if k == c.key {
        assert c in writes';
      } else {
        var x :| x in writes && x.key == k;
        assert x in writes';
      }
    }
  }

  ghost predicate OrphansOk(writes: seq<Copy>, orphans: set<Key>, written: map<Id, (Key, nat)>) {
    && (forall k :: k in orphans ==> exists c :: c in writes && c.id in written && written[c.id].0 == k && c.key != k)
    && (forall c :: c in writes && c.id in written && written[c.id].0 != c.key ==> written[c.id].0 in orphans)
  }

  lemma OrphansMore(writes: seq<Copy>, orphans: set<Key>, written: map<Id, (Key, nat)>, c: Copy)
    requires OrphansOk(writes, orphans, written)
    ensures OrphansOk(writes + [c],
                      orphans + (if c.id in written && written[c.id].0 != c.key then {written[c.id].0} else {}),
                      written)
  {
    var writes', orphans' := writes + [c],
      orphans + (if c.id in written && written[c.id].0 != c.key then {written[c.id].0} else {});
    forall k | k in orphans' ensures exists x :: x in writes' && x.id in written && written[x.id].0 == k && x.key != k {
      if k in orphans {
        var x :| x in writes && x.id in written && written[x.id].0 == k && x.key != k;
        assert x in writes';
      } else {
        assert c in writes';
      }
    }
  }

  /** What a pass gathers grows by a copy of another buffer and another key. */
  lemma GatherMore(g: Gathered, c: Copy, live: set<Id>, written: map<Id, (Key, nat)>, owner: map<Key, Id>,
                   present: set<Key>)
    requires GatherOk(g, written, owner, present) && c.id !in g.live && live == g.live + {c.id} && c.key !in g.queued
    requires if c.key in owner then owner[c.key] == c.id else c.key !in present
    ensures GatherOk(g.(writes := g.writes + [c], live := live, queued := g.queued[c.key := c.id],
                        orphans := g.orphans + (if c.id in written && written[c.id].0 != c.key then {written[c.id].0}
                                                else {})),
                     written, owner, present)
  {
    var writes, queued := g.writes + [c], g.queued[c.key := c.id];
    assert forall x :: x in g.writes ==> x.key != c.key && x.id != c.id;
    assert DistinctKeys(writes) && OneEach(writes) by { WritesMore(g.writes, c); }
    assert Queued(writes, queued) by { QueuedMore(g.writes, g.queued, c); }
    assert OrphansOk(writes,
                     g.orphans + (if c.id in written && written[c.id].0 != c.key then {written[c.id].0} else {}),
                     written) by {
      OrphansMore(g.writes, g.orphans, written, c);
    }
  }

  lemma GatherOneOk(g: Gathered, b: Buffer, written: map<Id, (Key, nat)>, owner: map<Key, Id>, present: set<Key>)
    requires GatherOk(g, written, owner, present) && b.id !in g.live
    ensures GatherOk(GatherOne(g, b, written, owner, present), written, owner, present)
  {
    var g' := GatherOne(g, b, written, owner, present);
    if g'.writes == g.writes {
      assert g' == g.(live := g'.live, blocked := g'.blocked, conflicted := g'.conflicted) && g.live <= g'.live;
    } else {
      var c := Copy(b.id, b.key.value, b.revision, b.text);
      assert c.key !in g.queued;
      GatherMore(g, c, g.live + {b.id}, written, owner, present);
    }
  }

  ghost predicate DistinctIds(buffers: seq<Buffer>) {
    forall i, j :: 0 <= i < j < |buffers| ==> buffers[i].id != buffers[j].id
  }

  lemma {:induction false} GatherIsOk(buffers: seq<Buffer>, written: map<Id, (Key, nat)>, owner: map<Key, Id>,
                                      present: set<Key>)
    requires DistinctIds(buffers)
    ensures GatherOk(Gather(buffers, written, owner, present), written, owner, present)
    ensures Gather(buffers, written, owner, present).live == IdsAmong(buffers)
  {
    if buffers != [] {
      var n := |buffers| - 1;
      GatherIsOk(buffers[..n], written, owner, present);
      LastIsNew(buffers);
      GatherOneOk(Gather(buffers[..n], written, owner, present), buffers[n], written, owner, present);
    }
  }

  ghost function IdsAmong(buffers: seq<Buffer>): set<Id> {
    set b | b in buffers :: b.id
  }

  lemma LastIsNew(buffers: seq<Buffer>)
    requires buffers != [] && DistinctIds(buffers)
    ensures var n := |buffers| - 1;
      DistinctIds(buffers[..n]) && buffers[n].id !in IdsAmong(buffers[..n])
      && IdsAmong(buffers) == IdsAmong(buffers[..n]) + {buffers[n].id}
  {
    var n := |buffers| - 1;
    assert buffers == buffers[..n] + [buffers[n]];
  }

  /** A buffer's owned keys go with their claims. */
  lemma ClearedInv(s: State, g: Gathered, unremovable: set<Key>)
    requires Inv(s)
    ensures Inv(Cleared(s, g, unremovable))
  {
    RetireInv(s, g.orphans, unremovable, s.cache.written);
    var s0 := Retire(s, g.orphans, unremovable);
    var s1 := s0.(cache := s0.cache.(owner := Minus(s0.cache.owner, g.orphans)));
    assert s1.cache == s1.cache.(written := s.cache.written);
    var dead := Dead(s1.cache.written, g.live);
    var keys := DeadKeys(s1.cache.written, s1.cache.owner, dead);
    RetireInv(s1, keys, unremovable, Minus(s1.cache.written, dead));
  }

  ghost predicate Claimable(owner: map<Key, Id>, writes: seq<Copy>) {
    forall c :: c in writes && c.key in owner ==> owner[c.key] == c.id
  }

  lemma {:induction false} WriteAllInv(s: State, writes: seq<Copy>, mode: Mode)
    requires Inv(s) && (mode == Now ==> Quiet(s)) && DistinctKeys(writes) && Claimable(s.cache.owner, writes)
    ensures Inv(WriteAll(s, writes, mode)) && (mode == Now ==> Quiet(WriteAll(s, writes, mode)))
    ensures forall k :: k in WriteAll(s, writes, mode).cache.owner && k !in KeysOf(writes) ==>
      k in s.cache.owner && WriteAll(s, writes, mode).cache.owner[k] == s.cache.owner[k]
  {
    if writes != [] {
      var n := |writes| - 1;
      WriteAllInv(s, writes[..n], mode);
      assert writes == writes[..n] + [writes[n]];
      assert writes[n].key !in KeysOf(writes[..n]);
      WriteInv(WriteAll(s, writes[..n], mode), writes[n], mode);
    }
  }

  lemma ClearedOwner(s: State, g: Gathered, unremovable: set<Key>)
    ensures Cleared(s, g, unremovable).cache.owner.Keys <= s.cache.owner.Keys
    ensures forall k :: k in Cleared(s, g, unremovable).cache.owner ==>
      Cleared(s, g, unremovable).cache.owner[k] == s.cache.owner[k]
    ensures Quiet(s) ==> Quiet(Cleared(s, g, unremovable))
  {
    GoodIs(s.cache.staged, g.orphans);
  }

  lemma PassInv(s: State, buffers: seq<Buffer>, mode: Mode, faults: Faults)
    requires Inv(s) && DistinctIds(buffers) && (mode == Now ==> Quiet(s))
    ensures Inv(Pass(s, buffers, mode, faults).0)
  {
    var g := Gather(buffers, s.cache.written, s.cache.owner, Present(s, faults.unreadable));
    var n := Writable(g.writes, faults.unwritable);
    GatherIsOk(buffers, s.cache.written, s.cache.owner, Present(s, faults.unreadable));
    ClearedInv(s, g, faults.unremovable);
    ClearedOwner(s, g, faults.unremovable);
    WriteAllInv(Cleared(s, g, faults.unremovable), g.writes[..n], mode);
  }

  lemma AdoptInv(s: State, id: Id, at: Option<(Key, nat)>, faults: Faults, panics: bool)
    requires Inv(s)
    ensures Inv(Adopt(s, id, at, faults, panics))
  {
    SettleInv(s, faults, panics);
  }

  lemma DiscardInv(s: State, key: Key, id: Id, current: Option<Key>, unremovable: set<Key>)
    requires Inv(s)
    ensures Inv(DiscardPath(s, key, unremovable)) && Inv(DiscardBuffer(s, id, current, unremovable))
  {
    var kept := map x | x in s.cache.written && s.cache.written[x].0 != key :: s.cache.written[x];
    RetireInv(s, {key}, unremovable, kept);
    RetireInv(s, OwnedBy(s.cache.owner, BufferKeys(s, id, current), id), unremovable, Minus(s.cache.written, {id}));
  }
}

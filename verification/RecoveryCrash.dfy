/** A recovery file this session did not write is kept (src/autosave.rs): sweeps,
    saves, kills, renames and dead buffers leave it, until a claim names its key. */
module RecoveryCrash {
  import opened Options
  import opened Recovery
  import opened RecoveryInvariants

  /** The files of `crash` are on disk, and nothing pending or recorded names them. */
  ghost predicate Unclaimed(s: State, crash: map<Key, Text>) {
    && (forall k :: k in crash ==>
          && k in s.disk && s.disk[k] == crash[k]
          && k !in s.cache.owner && k !in KeysOf(s.cache.staged) && k !in KeysOf(Batch(s.cache))
          && k !in s.cache.retiring)
    && (forall id :: id in s.cache.written ==> s.cache.written[id].0 !in crash)
  }

  lemma LandKeeps(s: State, ok: bool, crash: map<Key, Text>)
    requires Unclaimed(s, crash)
    ensures Unclaimed(Land(s, ok), crash)
  {
    if s.cache.installer.Some? && !s.cache.installer.value.Finished() {
      var i := s.cache.installer.value;
      assert i.copies[i.met] in Batch(s.cache);
    }
  }

  lemma FinishKeeps(s: State, faults: Faults, panics: bool, crash: map<Key, Text>)
    requires Unclaimed(s, crash)
    ensures Unclaimed(Finish(s, faults, panics), crash)
  {
    if s.cache.installer.Some? && !s.cache.installer.value.Finished() && !panics {
      var rest := s.cache.installer.value.copies[s.cache.installer.value.met..];
      TextsKeys(Good(rest, faults.uninstallable));
      GoodIs(rest, faults.uninstallable);
      assert Batch(Finish(s, faults, panics).cache) == Batch(s.cache);
      assert forall k :: k in crash ==> k !in KeysOf(rest);
    }
  }

  lemma TakeKeeps(s: State, wait: bool, faults: Faults, panics: bool, crash: map<Key, Text>)
    requires Unclaimed(s, crash)
    ensures Unclaimed(TakeInstaller(s, wait, faults, panics).0, crash)
  {
    if !(s.cache.installer.None? || (!wait && !s.cache.installer.value.Finished())) {
      FinishKeeps(s, faults, panics, crash);
    }
  }

  lemma InstallKeeps(s: State, faults: Faults, crash: map<Key, Text>)
    requires Unclaimed(s, crash)
    ensures Unclaimed(InstallStaged(s, faults), crash)
  {
    TextsKeys(Good(s.cache.staged, faults.uninstallable));
    GoodIs(s.cache.staged, faults.uninstallable);
    assert forall k :: k in KeysOf(Good(s.cache.staged, faults.uninstallable)) ==> k in KeysOf(s.cache.staged);
  }

  lemma SettleKeeps(s: State, faults: Faults, panics: bool, crash: map<Key, Text>)
    requires Unclaimed(s, crash)
    ensures Unclaimed(Settle(s, faults, panics).0, crash) && Unclaimed(SettleQuietly(s, faults, panics), crash)
  {
    TakeKeeps(s, true, faults, panics, crash);
    InstallKeeps(TakeInstaller(s, true, faults, panics).0, faults, crash);
  }

  lemma BeginKeeps(s: State, spawned: bool, faults: Faults, crash: map<Key, Text>)
    requires Unclaimed(s, crash)
    ensures Unclaimed(BeginInstall(s, spawned, faults), crash)
  {
    InstallKeeps(s, faults, crash);
  }

  lemma RetireKeeps(s: State, keys: set<Key>, unremovable: set<Key>, written: map<Id, (Key, nat)>,
                    crash: map<Key, Text>)
    requires Unclaimed(s, crash) && (forall k :: k in keys ==> k !in crash) && forall id ::
      id in written ==> written[id].0 !in crash
    ensures var s' := Retire(s, keys, unremovable);
      Unclaimed(s'.(cache := s'.cache.(owner := Minus(s'.cache.owner, keys), written := written)), crash)
  {
    GoodIs(s.cache.staged, keys);
  }

  lemma {:induction false} WriteAllKeeps(s: State, writes: seq<Copy>, mode: Mode, crash: map<Key, Text>)
    requires Unclaimed(s, crash) && forall c :: c in writes ==> c.key !in crash
    ensures Unclaimed(WriteAll(s, writes, mode), crash)
  {
    if writes != [] {
      var n := |writes| - 1;
      WriteAllKeeps(s, writes[..n], mode, crash);
      GoodIs(WriteAll(s, writes[..n], mode).cache.staged, {writes[n].key});
    }
  }

  lemma PassKeepsUnwritten(s: State, buffers: seq<Buffer>, mode: Mode, faults: Faults, crash: map<Key, Text>)
    requires Unclaimed(s, crash) && DistinctIds(buffers)
    requires var writes := Gather(buffers, s.cache.written, s.cache.owner, Present(s, faults.unreadable)).writes;
      forall c :: c in writes[..Writable(writes, faults.unwritable)] ==> c.key !in crash
    ensures Unclaimed(Pass(s, buffers, mode, faults).0, crash)
  {
    var present := Present(s, faults.unreadable);
    var g := Gather(buffers, s.cache.written, s.cache.owner, present);
    GatherIsOk(buffers, s.cache.written, s.cache.owner, present);
    var s0 := Retire(s, g.orphans, faults.unremovable);
    var s1 := s0.(cache := s0.cache.(owner := Minus(s0.cache.owner, g.orphans)));
    assert s1 == s0.(cache := s0.cache.(owner := Minus(s0.cache.owner, g.orphans), written := s.cache.written));
    RetireKeeps(s, g.orphans, faults.unremovable, s.cache.written, crash);
    var dead := Dead(s1.cache.written, g.live);
    RetireKeeps(s1, DeadKeys(s1.cache.written, s1.cache.owner, dead), faults.unremovable, Minus(s1.cache.written, dead),
                crash);
    WriteAllKeeps(Cleared(s, g, faults.unremovable), g.writes[..Writable(g.writes, faults.unwritable)], mode, crash);
  }

  /** A pass writes to no key whose file it finds and nobody owns. */
  lemma PassKeeps(s: State, buffers: seq<Buffer>, mode: Mode, faults: Faults, crash: map<Key, Text>)
    requires Unclaimed(s, crash) && DistinctIds(buffers) && forall k :: k in crash ==> k !in faults.unreadable
    ensures Unclaimed(Pass(s, buffers, mode, faults).0, crash)
  {
    GatherIsOk(buffers, s.cache.written, s.cache.owner, Present(s, faults.unreadable));
    PassKeepsUnwritten(s, buffers, mode, faults, crash);
  }

  ghost predicate Wanted(buffers: seq<Buffer>, key: Key) {
    exists b :: b in buffers && b.modified && b.key == Some(key)
  }

  /** A key nobody owns or recorded is written exactly if a modified buffer has it and
      its file is not found. */
  lemma {:induction false} GatherWrites(buffers: seq<Buffer>, written: map<Id, (Key, nat)>, owner: map<Key, Id>,
                                        present: set<Key>, key: Key)
    requires DistinctIds(buffers) && key !in owner && forall id :: id in written ==> written[id].0 != key
    ensures key in KeysOf(Gather(buffers, written, owner, present).writes) <==> key !in present && Wanted(buffers, key)
  {
    if buffers != [] {
      var n := |buffers| - 1;
      GatherWrites(buffers[..n], written, owner, present, key);
      GatherIsOk(buffers[..n], written, owner, present);
      assert buffers == buffers[..n] + [buffers[n]];
      GatherWritesOne(Gather(buffers[..n], written, owner, present), buffers[n], written, owner, present, key);
      WantedMore(buffers[..n], buffers[n], key);
    }
  }

  lemma WantedMore(buffers: seq<Buffer>, b: Buffer, key: Key)
    ensures Wanted(buffers + [b], key) <==> Wanted(buffers, key) || (b.modified && b.key == Some(key))
  {
    if x :| x in buffers && x.modified && x.key == Some(key) {
      assert x in buffers + [b];
    }
    assert b in buffers + [b];
  }

  lemma GatherWritesOne(g: Gathered, b: Buffer, written: map<Id, (Key, nat)>, owner: map<Key, Id>, present: set<Key>,
                        key: Key)
    requires GatherOk(g, written, owner, present) && b.id !in g.live && key !in owner && forall id ::
      id in written ==> written[id].0 != key
    ensures key in KeysOf(GatherOne(g, b, written, owner, present).writes) <==>
      key in KeysOf(g.writes) || (b.modified && b.key == Some(key) && key !in present)
  {
    var g' := GatherOne(g, b, written, owner, present);
    if g'.writes != g.writes {
      var c := Copy(b.id, b.key.value, b.revision, b.text);
      assert g'.writes == g.writes + [c];
      assert c in g'.writes && forall x :: x in g.writes ==> x in g'.writes;
    }
  }

  lemma {:induction false} WriteAllOwns(s: State, writes: seq<Copy>, mode: Mode, key: Key)
    requires key in KeysOf(writes)
    ensures key in WriteAll(s, writes, mode).cache.owner
  {
    var n := |writes| - 1;
    if writes[n].key != key {
      var c :| c in writes && c.key == key;
      assert writes == writes[..n] + [writes[n]];
      assert c in writes[..n];
      WriteAllOwns(s, writes[..n], mode, key);
    }
  }

  /** No write before the key's own cannot be made, nor that one. */
  ghost predicate Unstopped(writes: seq<Copy>, key: Key, unwritable: set<Key>) {
    forall j :: 0 <= j < |writes| && writes[j].key in unwritable ==> exists i :: 0 <= i < j && writes[i].key == key
  }

  /** A key among the writes gathered is written exactly if nothing stops the pass
      before it. */
  lemma WrittenExactly(writes: seq<Copy>, key: Key, unwritable: set<Key>)
    ensures key in KeysOf(writes[..Writable(writes, unwritable)]) <==>
      key in KeysOf(writes) && Unstopped(writes, key, unwritable)
  {
    var n := Writable(writes, unwritable);
    forall i | 0 <= i < n ensures writes[i] in writes[..n] {
      assert writes[..n][i] == writes[i];
    }
    if n < |writes| && Unstopped(writes, key, unwritable) {
      var i :| 0 <= i < n && writes[i].key == key;
      assert writes[i] in writes[..n];
    }
  }

  /** A pass leaves a file nobody claimed alone exactly unless it writes to its key. */
  lemma PassClaims(s: State, buffers: seq<Buffer>, mode: Mode, faults: Faults, key: Key, text: Text)
    requires Unclaimed(s, map[key := text]) && DistinctIds(buffers)
    ensures var g := Gather(buffers, s.cache.written, s.cache.owner, Present(s, faults.unreadable));
      Unclaimed(Pass(s, buffers, mode, faults).0, map[key := text]) <==>
        key !in KeysOf(g.writes[..Writable(g.writes, faults.unwritable)])
  {
    var g := Gather(buffers, s.cache.written, s.cache.owner, Present(s, faults.unreadable));
    var made := g.writes[..Writable(g.writes, faults.unwritable)];
    if key in KeysOf(made) {
      WriteAllOwns(Cleared(s, g, faults.unremovable), made, mode, key);
    } else {
      PassKeepsUnwritten(s, buffers, mode, faults, map[key := text]);
    }
  }

  /** A pass leaves a file nobody claimed alone exactly unless it cannot look for it, a
      modified buffer wants its key, and no write before that one fails, nor that one. */
  lemma PassKeepsExactly(s: State, buffers: seq<Buffer>, mode: Mode, faults: Faults, key: Key, text: Text)
    requires Unclaimed(s, map[key := text]) && DistinctIds(buffers)
    ensures var g := Gather(buffers, s.cache.written, s.cache.owner, Present(s, faults.unreadable));
      Unclaimed(Pass(s, buffers, mode, faults).0, map[key := text]) <==>
        !(key in faults.unreadable && Wanted(buffers, key) && Unstopped(g.writes, key, faults.unwritable))
  {
    var present := Present(s, faults.unreadable);
    PassClaims(s, buffers, mode, faults, key, text);
    GatherWrites(buffers, s.cache.written, s.cache.owner, present, key);
    WrittenExactly(Gather(buffers, s.cache.written, s.cache.owner, present).writes, key, faults.unwritable);
  }

  /** Adopting claims the one key. */
  lemma AdoptKeeps(s: State, id: Id, at: Option<(Key, nat)>, faults: Faults, panics: bool, crash: map<Key, Text>)
    requires Unclaimed(s, crash)
    ensures Unclaimed(Adopt(s, id, at, faults, panics), if at.Some? then crash - {at.value.0} else crash)
  {
    SettleKeeps(s, faults, panics, crash);
  }

  lemma DiscardPathKeeps(s: State, key: Key, unremovable: set<Key>, crash: map<Key, Text>)
    requires Unclaimed(s, crash)
    ensures Unclaimed(DiscardPath(s, key, unremovable), crash - {key})
  {
    var kept := map x | x in s.cache.written && s.cache.written[x].0 != key :: s.cache.written[x];
    RetireKeeps(s, {key}, unremovable, kept, crash - {key});
  }

  lemma DiscardBufferKeeps(s: State, id: Id, current: Option<Key>, unremovable: set<Key>, crash: map<Key, Text>)
    requires Unclaimed(s, crash)
    ensures Unclaimed(DiscardBuffer(s, id, current, unremovable), crash)
  {
    RetireKeeps(s, OwnedBy(s.cache.owner, BufferKeys(s, id, current), id), unremovable, Minus(s.cache.written, {id}),
                crash);
  }
}

/** Autosave's cache as the editor holds it (`AutosaveCache` in src/autosave.rs): the
    loops of its operations, each tied to what it computes, and the operations. */
module AutosaveCache {
  import opened Options
  import opened Recovery
  import opened RecoveryInvariants
  import opened RecoverySync
  import opened RecoveryProtection
  import opened RecoveryCrash
  import opened RecoveryRuns
  import opened RecoveryPasses

  // ----- the loops -----

  /** Install copies in order, returning those that failed. */
  method Install(copies: seq<Copy>, disk: map<Key, Text>, bad: set<Key>)
    returns (disk': map<Key, Text>, failed: seq<Copy>)
    ensures disk' == disk + Texts(Good(copies, bad)) && failed == Bad(copies, bad)
  {
    disk', failed := disk, [];
    for i := 0 to |copies|
      invariant disk' == disk + Texts(Good(copies[..i], bad)) && failed == Bad(copies[..i], bad)
    {
      var c := copies[i];
      if c.key in bad {
        failed := failed + [c];
      } else {
        disk' := disk'[c.key := c.text];
      }
      InstallOne(copies[..i], c, disk, bad);
      assert copies[..i + 1] == copies[..i] + [c];
    }
    assert copies[..|copies|] == copies;
  }

  lemma InstallOne(copies: seq<Copy>, c: Copy, disk: map<Key, Text>, bad: set<Key>)
    ensures c.key in bad ==>
      Good(copies + [c], bad) == Good(copies, bad) && Bad(copies + [c], bad) == Bad(copies, bad) + [c]
    ensures c.key !in bad ==>
      && disk + Texts(Good(copies + [c], bad)) == (disk + Texts(Good(copies, bad)))[c.key := c.text]
      && Bad(copies + [c], bad) == Bad(copies, bad)
  {
    var more := copies + [c];
    assert more[..|more| - 1] == copies && more[|more| - 1] == c;
    if c.key in bad {
      assert Good(more, bad) == Good(copies, bad) + [];
    } else {
      assert Good(more, bad) == Good(copies, bad) + [c] && Bad(more, bad) == Bad(copies, bad) + [];
      TextsSnoc(Good(copies, bad), c);
      PutTexts(disk, Texts(Good(copies, bad)), c.key, c.text);
    }
  }

  lemma PutTexts(disk: map<Key, Text>, texts: map<Key, Text>, key: Key, text: Text)
    ensures disk + texts[key := text] == (disk + texts)[key := text]
  {
  }

  /** Drop the entries that name a copy that failed, and keep the failures to report. */
  method AbsorbFailed(cache: Cache, failed: seq<Copy>) returns (cache': Cache)
    ensures cache' == Absorb(cache, failed)
  {
    cache' := cache;
    for i := 0 to |failed|
      invariant cache' == Absorb(cache, failed[..i])
    {
      var f := failed[i];
      AbsorbedMore(cache.written, failed[..i], f);
      assert failed[..i + 1] == failed[..i] + [f];
      if f.id in cache'.written && cache'.written[f.id] == (f.key, f.revision) {
        cache' := cache'.(written := cache'.written - {f.id});
      }
      cache' := cache'.(unreported := cache'.unreported + [CopyFailed(f.key)]);
      assert Reports(failed[..i + 1]) == Reports(failed[..i]) + [CopyFailed(f.key)];
    }
    assert failed[..|failed|] == failed;
  }

  lemma AbsorbedMore(written: map<Id, (Key, nat)>, failed: seq<Copy>, f: Copy)
    ensures var w := Absorbed(written, failed);
      Absorbed(written, failed + [f]) == if f.id in w && w[f.id] == (f.key, f.revision) then w - {f.id} else w
  {
    assert forall x :: x in failed + [f] <==> x in failed || x == f;
  }

  /** Retire one key and drop its owner. */
  function RetireOwned(s: State, keys: set<Key>, unremovable: set<Key>): State {
    var s' := Retire(s, keys, unremovable);
    s'.(cache := s'.cache.(owner := Minus(s'.cache.owner, keys)))
  }

  lemma RetireMore(s: State, done: set<Key>, k: Key, unremovable: set<Key>)
    ensures RetireOwned(RetireOwned(s, done, unremovable), {k}, unremovable) == RetireOwned(s, done + {k}, unremovable)
  {
    GoodTwice(s.cache.staged, done, {k});
    var batch := KeysOf(Batch(s.cache));
    assert (done + {k}) * batch == done * batch + {k} * batch;
    var a, b := done - done * batch - unremovable, {k} - {k} * batch - unremovable;
    assert (done + {k}) - (done + {k}) * batch - unremovable == a + b;
    assert (s.disk - a) - b == s.disk - (a + b);
    assert Minus(Minus(s.cache.owner, done), {k}) == Minus(s.cache.owner, done + {k});
  }

  lemma {:induction false} GoodTwice(copies: seq<Copy>, a: set<Key>, b: set<Key>)
    ensures Good(Good(copies, a), b) == Good(copies, a + b)
  {
    if copies != [] {
      var n := |copies| - 1;
      GoodTwice(copies[..n], a, b);
      if copies[n].key in a {
        assert Good(copies, a) == Good(copies[..n], a);
      } else {
        assert Good(copies, a)[..|Good(copies, a)| - 1] == Good(copies[..n], a);
      }
    }
  }

  /** Retire the keys, in any order. */
  method RetireAll(s: State, keys: set<Key>, unremovable: set<Key>) returns (s': State)
    ensures s' == RetireOwned(s, keys, unremovable)
  {
    s' := s;
    var left := keys;
    RetireNone(s, unremovable);
    while left != {}
      invariant left <= keys && s' == RetireOwned(s, keys - left, unremovable)
      decreases left
    {
      var k :| k in left;
      RetireMore(s, keys - left, k, unremovable);
      assert keys - left + {k} == keys - (left - {k});
      s' := RetireOwned(s', {k}, unremovable);
      left := left - {k};
    }
    assert keys - {} == keys;
  }

  lemma RetireNone(s: State, unremovable: set<Key>)
    ensures forall keys: set<Key> :: keys == {} ==> RetireOwned(s, keys, unremovable) == s
  {
    GoodAll(s.cache.staged);
    assert s.disk - {} == s.disk && Minus(s.cache.owner, {}) == s.cache.owner;
    assert {} * KeysOf(Batch(s.cache)) == {};
  }

  /** Walk the buffers and decide what to write. */
  method GatherAll(buffers: seq<Buffer>, s: State, unreadable: set<Key>) returns (g: Gathered)
    ensures g == Gather(buffers, s.cache.written, s.cache.owner, Present(s, unreadable))
    ensures DistinctIds(buffers) ==>
      Decided(buffers, s.cache.written, s.cache.owner, Present(s, unreadable), |buffers|, g)
  {
    g := NothingGathered;
    for i := 0 to |buffers|
      invariant g == Gather(buffers[..i], s.cache.written, s.cache.owner, Present(s, unreadable))
    {
      assert buffers[..i + 1][..i] == buffers[..i];
      g := GatherOne(g, buffers[i], s.cache.written, s.cache.owner, Present(s, unreadable));
    }
    assert buffers[..|buffers|] == buffers;
    if DistinctIds(buffers) {
      GatherExactly(buffers, s.cache.written, s.cache.owner, Present(s, unreadable), |buffers|);
    }
  }

  /** Write the copies in order, until one cannot be written. */
  method WriteCopies(s: State, writes: seq<Copy>, mode: Mode, unwritable: set<Key>) returns (s': State, n: nat)
    ensures n == Writable(writes, unwritable) && s' == WriteAll(s, writes[..n], mode)
  {
    s', n := s, 0;
    while n < |writes| && writes[n].key !in unwritable
      invariant n <= |writes| && s' == WriteAll(s, writes[..n], mode)
      invariant forall i :: 0 <= i < n ==> writes[i].key !in unwritable
      decreases |writes| - n
    {
      assert writes[..n + 1][..n] == writes[..n];
      s' := WriteOne(s', writes[n], mode);
      n := n + 1;
    }
    WritableIs(writes, unwritable, n);
  }

  lemma WritableIs(writes: seq<Copy>, unwritable: set<Key>, n: nat)
    requires n <= |writes| && (forall i :: 0 <= i < n ==> writes[i].key !in unwritable)
      && (n < |writes| ==> writes[n].key in unwritable)
    ensures Writable(writes, unwritable) == n
  {
  }

  /** One pass: decide, retire what moved or died, and write. */
  method RunPass(s: State, buffers: seq<Buffer>, mode: Mode, faults: Faults) returns (s': State, r: Passed)
    ensures (s', r) == Pass(s, buffers, mode, faults)
  {
    var g := GatherAll(buffers, s, faults.unreadable);
    s' := RetireAll(s, g.orphans, faults.unremovable);
    var dead := Dead(s'.cache.written, g.live);
    var keys := DeadKeys(s'.cache.written, s'.cache.owner, dead);
    s' := RetireAll(s', keys, faults.unremovable);
    s' := s'.(cache := s'.cache.(written := Minus(s'.cache.written, dead)));
    assert s' == Cleared(s, g, faults.unremovable);
    var n;
    s', n := WriteCopies(s', g.writes, mode, faults.unwritable);
    r := if n < |g.writes| then WriteFailed(g.writes[n].key) else Passed(n, g.blocked, g.conflicted);
  }

  /** Take the installer, waiting for it unless it has finished. */
  method Take(s: State, wait: bool, faults: Faults, panics: bool) returns (s': State, count: Option<nat>)
    ensures (s', count) == TakeInstaller(s, wait, faults, panics)
  {
    if s.cache.installer.None? || (!wait && !s.cache.installer.value.Finished()) {
      return s, None;
    }
    var i := s.cache.installer.value;
    var disk, failed := s.disk, i.failed;
    if !i.Finished() && !panics {
      var more;
      disk, more := Install(i.copies[i.met..], disk, faults.uninstallable);
      failed := failed + more;
    }
    var cache, n := s.cache.(installer := None), 0;
    if i.panicked || (!i.Finished() && panics) {
      cache := cache.(written := map[], unreported := cache.unreported + [InstallerPanicked]);
    } else {
      n := if |failed| > |i.copies| then 0 else |i.copies| - |failed|;
      cache := AbsorbFailed(cache, failed);
    }
    s' := State(cache.(retiring := {}), disk - (cache.retiring - faults.unremovable));
    count := Some(n);
  }

  /** Take the installer, then install what is still staged. */
  method SettleBoth(s: State, faults: Faults, panics: bool) returns (s': State, r: Result<nat>)
    ensures (s', r) == Settle(s, faults, panics)
  {
    var s1, n := Take(s, true, faults, panics);
    var disk, failed := Install(s1.cache.staged, s1.disk, faults.uninstallable);
    var count := (if n.Some? then n.value else 0) + |Good(s1.cache.staged, faults.uninstallable)|;
    var cache := AbsorbFailed(s1.cache.(staged := []), failed);
    var (drained, error) := Drained(cache);
    s' := State(drained, disk);
    r := match error case Some(e) => Err(e) case None => Ok(count);
  }

  // ----- the cache -----

  class AutosaveCache {
    var inner: Cache
    /** The recovery files, by key. */
    var disk: map<Key, Text>

    ghost function Whole(): State
      reads this
    {
      State(inner, disk)
    }

    constructor (found: map<Key, Text>)
      ensures Whole() == Begin(found) && Inv(Whole())
    {
      inner, disk := NewCache, found;
    }

    method Set(s: State)
      modifies this
      ensures Whole() == s
    {
      inner, disk := s.cache, s.disk;
    }

    /** The forced pass: what is staged goes in first, and every copy is in place. */
    method SweepNow(buffers: seq<Buffer>, faults: Faults, panics: bool) returns (installing: Option<Report>, r: Passed)
      requires Inv(Whole()) && DistinctIds(buffers)
      modifies this
      ensures Inv(Whole()) && (Whole(), installing, r) == Sweep(old(Whole()), buffers, faults, panics)
    {
      DoInv(Whole(), Swept(buffers, faults, panics));
      var settled := SettleAll(faults, panics);
      var s;
      s, r := RunPass(State(inner, disk), buffers, Now, faults);
      Set(s);
      installing := if settled.Err? then Some(settled.error) else None;
    }

    /** The periodic pass: its copies are staged, and nothing is waited on. */
    method StagePass(buffers: seq<Buffer>, faults: Faults) returns (r: Passed)
      requires Inv(Whole()) && DistinctIds(buffers)
      modifies this
      ensures Inv(Whole()) && (Whole(), r) == Stage(old(Whole()), buffers, faults)
    {
      DoInv(Whole(), StagedPass(buffers, faults));
      var s;
      s, r := RunPass(State(inner, disk), buffers, Staged, faults);
      Set(s.(cache := s.cache.(passFailed := r.WriteFailed?)));
    }

    /** Hand the staged copies to an installer. */
    method BeginInstalling(spawned: bool, faults: Faults)
      requires Inv(Whole())
      modifies this
      ensures Inv(Whole()) && Whole() == BeginInstall(old(Whole()), spawned, faults)
    {
      DoInv(Whole(), Began(spawned, faults));
      if inner.staged == [] || inner.installer.Some? {
        return;
      }
      if spawned {
        inner := inner.(staged := [], installer := Some(Installer(inner.staged, 0, [], false)));
      } else {
        InstallHere(faults);
      }
    }

    /** Install what is staged on this thread. */
    method InstallHere(faults: Faults)
      modifies this
      ensures Whole() == InstallStaged(old(Whole()), faults)
    {
      var disk', failed := Install(inner.staged, disk, faults.uninstallable);
      var cache := AbsorbFailed(inner.(staged := []), failed);
      inner, disk := cache, disk';
    }

    /** Take an installer that has finished, without waiting for one still running. */
    method CollectDone(faults: Faults) returns (r: Result<(nat, bool)>)
      requires Inv(Whole())
      modifies this
      ensures Inv(Whole()) && (Whole(), r) == Collect(old(Whole()), faults)
    {
      DoInv(Whole(), Collected(faults));
      var s, n := Take(State(inner, disk), false, faults, false);
      var (cache, error) := Drained(s.cache);
      Set(s.(cache := cache));
      r := match error case Some(e) => Err(e) case None => Ok((if n.Some? then n.value
                                                               else 0, n.Some? && !cache.passFailed));
    }

    /** Bring every staged copy to its key: wait for the installer, then install what
        is still staged. */
    method SettleAll(faults: Faults, panics: bool) returns (r: Result<nat>)
      requires Inv(Whole())
      modifies this
      ensures Inv(Whole()) && Quiet(Whole()) && (Whole(), r) == Settle(old(Whole()), faults, panics)
    {
      SettleInv(Whole(), faults, panics);
      var s;
      s, r := SettleBoth(State(inner, disk), faults, panics);
      Set(s);
    }

    /** Claim the recovery file at a buffer's path. */
    method AdoptFile(id: Id, at: Option<(Key, nat)>, faults: Faults, panics: bool)
      requires Inv(Whole())
      modifies this
      ensures Inv(Whole()) && Whole() == Adopt(old(Whole()), id, at, faults, panics)
    {
      DoInv(Whole(), Adopted(id, at, faults, panics));
      var settled := SettleAll(faults, panics);
      if settled.Err? {
        inner := inner.(unreported := inner.unreported + [settled.error]);
      }
      if at.Some? {
        var (key, revision) := at.value;
        var kept := map other | other in inner.written && (other == id || inner.written[other].0 != key) ::
          inner.written[other];
        inner := inner.(written := kept[id := (key, revision)], owner := inner.owner[key := id]);
      }
    }

    /** Remove the recovery file of a path, whoever claims it. */
    method DiscardFile(key: Key, faults: Faults)
      requires Inv(Whole())
      modifies this
      ensures Inv(Whole()) && Whole() == DiscardPath(old(Whole()), key, faults.unremovable)
    {
      DoInv(Whole(), DiscardedPath(key, faults));
      var kept := map id | id in inner.written && inner.written[id].0 != key :: inner.written[id];
      var s := RetireAll(State(inner.(written := kept), disk), {key}, faults.unremovable);
      Set(s);
    }

    /** Retire the recovery copies a buffer owns, as it is saved or killed. */
    method DiscardCopies(id: Id, current: Option<Key>, faults: Faults)
      requires Inv(Whole())
      modifies this
      ensures Inv(Whole()) && Whole() == DiscardBuffer(old(Whole()), id, current, faults.unremovable)
    {
      DoInv(Whole(), DiscardedBuffer(id, current, faults));
      var s := State(inner, disk);
      var keys := OwnedBy(inner.owner, BufferKeys(s, id, current), id);
      s := RetireAll(s, keys, faults.unremovable);
      Set(s.(cache := s.cache.(written := Minus(s.cache.written, {id}))));
    }

    /** The installer's own step, at any time between these operations. */
    method InstallerLands(ok: bool)
      requires Inv(Whole())
      modifies this
      ensures Inv(Whole()) && Whole() == Land(old(Whole()), ok)
    {
      LandInv(Whole(), ok);
      if inner.installer.Some? && !inner.installer.value.Finished() {
        var i := inner.installer.value;
        var c := i.copies[i.met];
        if ok {
          inner, disk := inner.(installer := Some(i.(met := i.met + 1))), disk[c.key := c.text];
        } else {
          inner := inner.(installer := Some(i.(met := i.met + 1, failed := i.failed + [c])));
        }
      }
    }
  }
}

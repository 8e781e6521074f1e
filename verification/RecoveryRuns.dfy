/** Autosave over whole runs (src/autosave.rs): any interleaving of passes, claims,
    saves and kills with an installer whose copies land one by one. */
module RecoveryRuns {
  import opened Options
  import opened Recovery
  import opened RecoveryInvariants
  import opened RecoverySync
  import opened RecoveryProtection
  import opened RecoveryCrash

  /** One operation of the main thread, or one step of the installer, with what goes
      wrong during it. */
  datatype Event =
    | Swept(buffers: seq<Buffer>, faults: Faults, panics: bool)
    | StagedPass(buffers: seq<Buffer>, faults: Faults)
    | Began(spawned: bool, faults: Faults)
    | Landed(ok: bool)
    | Panicked
    | Collected(faults: Faults)
    | Settled(faults: Faults, panics: bool)
    | Adopted(id: Id, at: Option<(Key, nat)>, faults: Faults, panics: bool)
    | DiscardedPath(key: Key, faults: Faults)
    | DiscardedBuffer(id: Id, current: Option<Key>, faults: Faults)

  function Do(s: State, e: Event): State {
    match e
    case Swept(buffers, faults, panics) => Sweep(s, buffers, faults, panics).0
    case StagedPass(buffers, faults) => Stage(s, buffers, faults).0
    case Began(spawned, faults) => BeginInstall(s, spawned, faults)
    case Landed(ok) => Land(s, ok)
    case Panicked => Panic(s)
    case Collected(faults) => Collect(s, faults).0
    case Settled(faults, panics) => Settle(s, faults, panics).0
    case Adopted(id, at, faults, panics) => Adopt(s, id, at, faults, panics)
    case DiscardedPath(key, faults) => DiscardPath(s, key, faults.unremovable)
    case DiscardedBuffer(id, current, faults) => DiscardBuffer(s, id, current, faults.unremovable)
  }

  function Run(s: State, events: seq<Event>): State {
    if events == [] then s else Do(Run(s, events[..|events| - 1]), events[|events| - 1])
  }

  /** A session begins with the recovery files it finds. */
  function Begin(disk: map<Key, Text>): State {
    State(NewCache, disk)
  }

  /** A registry holds each buffer once. */
  ghost predicate Sane(e: Event) {
    match e
    case Swept(buffers, _, _) => DistinctIds(buffers)
    case StagedPass(buffers, _) => DistinctIds(buffers)
    case _ => true
  }

  ghost predicate AllSane(events: seq<Event>) {
    forall e :: e in events ==> Sane(e)
  }

  lemma SweepInv(s: State, buffers: seq<Buffer>, faults: Faults, panics: bool)
    requires Inv(s) && DistinctIds(buffers)
    ensures Inv(Sweep(s, buffers, faults, panics).0)
  {
    SettleInv(s, faults, panics);
    PassInv(Settle(s, faults, panics).0, buffers, Now, faults);
  }

  lemma StageInv(s: State, buffers: seq<Buffer>, faults: Faults)
    requires Inv(s) && DistinctIds(buffers)
    ensures Inv(Stage(s, buffers, faults).0)
  {
    PassInv(s, buffers, Staged, faults);
  }

  lemma CollectInv(s: State, faults: Faults)
    requires Inv(s)
    ensures Inv(Collect(s, faults).0)
  {
    TakeInv(s, false, faults, false);
  }

  lemma DoInv(s: State, e: Event)
    requires Inv(s) && Sane(e)
    ensures Inv(Do(s, e))
  {
    match e
    case Swept(buffers, faults, panics) =>
      SweepInv(s, buffers, faults, panics);
    case StagedPass(buffers, faults) => StageInv(s, buffers, faults);
    case Began(spawned, faults) => BeginInv(s, spawned, faults);
    case Landed(ok) => LandInv(s, ok);
    case Panicked => PanicInv(s);
    case Collected(faults) => CollectInv(s, faults);
    case Settled(faults, panics) => SettleInv(s, faults, panics);
    case Adopted(id, at, faults, panics) => AdoptInv(s, id, at, faults, panics);
    case DiscardedPath(key, faults) => DiscardInv(s, key, 0, None, faults.unremovable);
    case DiscardedBuffer(id, current, faults) => DiscardInv(s, 0, id, current, faults.unremovable);
  }

  lemma {:induction false} RunInv(disk: map<Key, Text>, events: seq<Event>)
    requires AllSane(events)
    ensures Inv(Run(Begin(disk), events))
  {
    if events != [] {
      RunInv(disk, events[..|events| - 1]);
      DoInv(Run(Begin(disk), events[..|events| - 1]), events[|events| - 1]);
    }
  }

  // ----- refinement -----

  /** Nothing goes wrong. */
  ghost predicate Clean(e: Event) {
    match e
    case Swept(_, faults, panics) => faults == NoFaults && !panics
    case StagedPass(_, faults) => faults == NoFaults
    case Began(_, faults) => faults == NoFaults
    case Landed(ok) => ok
    case Panicked => false
    case Collected(faults) => faults == NoFaults
    case Settled(faults, panics) => faults == NoFaults && !panics
    case Adopted(_, _, faults, panics) => faults == NoFaults && !panics
    case DiscardedPath(_, faults) => faults == NoFaults
    case DiscardedBuffer(_, _, faults) => faults == NoFaults
  }

  ghost predicate AllClean(events: seq<Event>) {
    forall e :: e in events ==> Clean(e) && Sane(e)
  }

  /** The synchronous machine has nothing to stage, install, collect or settle. */
  function SyncDo(y: Sync, e: Event): Sync {
    match e
    case Swept(buffers, _, _) => SyncPass(y, buffers).0
    case StagedPass(buffers, _) => SyncPass(y, buffers).0
    case Adopted(id, at, _, _) => SyncAdopt(y, id, at)
    case DiscardedPath(key, _) => SyncDiscardPath(y, key)
    case DiscardedBuffer(id, current, _) => SyncDiscardBuffer(y, id, current)
    case _ => y
  }

  function SyncRun(y: Sync, events: seq<Event>): Sync {
    if events == [] then y else SyncDo(SyncRun(y, events[..|events| - 1]), events[|events| - 1])
  }

  /** What a pass reports. */
  function Reported(s: State, e: Event): Option<Passed> {
    match e
    case Swept(buffers, faults, panics) => Some(Sweep(s, buffers, faults, panics).2)
    case StagedPass(buffers, faults) => Some(Stage(s, buffers, faults).1)
    case _ => None
  }

  function SyncReported(y: Sync, e: Event): Option<Passed> {
    match e
    case Swept(buffers, _, _) => Some(SyncPass(y, buffers).1)
    case StagedPass(buffers, _) => Some(SyncPass(y, buffers).1)
    case _ => None
  }

  lemma PassFaultless(s: State, buffers: seq<Buffer>, mode: Mode)
    requires Faultless(s)
    ensures Faultless(Pass(s, buffers, mode, NoFaults).0)
  {
    var g := Gather(buffers, s.cache.written, s.cache.owner, Present(s, {}));
    WriteAllInstaller(Cleared(s, g, {}), g.writes[..Writable(g.writes, {})], mode);
  }

  lemma {:induction false} WriteAllInstaller(s: State, writes: seq<Copy>, mode: Mode)
    ensures WriteAll(s, writes, mode).cache.installer == s.cache.installer
  {
    if writes != [] {
      WriteAllInstaller(s, writes[..|writes| - 1], mode);
    }
  }

  lemma SweepRefines(s: State, buffers: seq<Buffer>)
    requires Inv(s) && Faultless(s) && DistinctIds(buffers)
    ensures var (s', _, r) := Sweep(s, buffers, NoFaults, false);
      Abs(s') == SyncPass(Abs(s), buffers).0 && r == SyncPass(Abs(s), buffers).1 && Faultless(s')
  {
    AbsSettle(s);
    SettleInv(s, NoFaults, false);
    AbsPass(Settle(s, NoFaults, false).0, buffers, Now);
    PassFaultless(Settle(s, NoFaults, false).0, buffers, Now);
  }

  /** One step without faults does what the synchronous machine does. */
  lemma DoRefines(s: State, e: Event)
    requires Inv(s) && Faultless(s) && Clean(e) && Sane(e)
    ensures Abs(Do(s, e)) == SyncDo(Abs(s), e) && Faultless(Do(s, e))
    ensures Reported(s, e) == SyncReported(Abs(s), e)
  {
    match e
    case Swept(buffers, faults, panics) => SweepRefines(s, buffers);
    case StagedPass(buffers, faults) =>
      AbsPass(s, buffers, Staged);
      PassFaultless(s, buffers, Staged);
    case Began(spawned, faults) => AbsBegin(s, spawned);
    case Landed(ok) => AbsLand(s);
    case Panicked =>
    case Collected(faults) => AbsTake(s, false);
    case Settled(faults, panics) => AbsSettle(s);
    case Adopted(id, at, faults, panics) => AbsAdopt(s, id, at);
    case DiscardedPath(key, faults) => AbsDiscardPath(s, key);
    case DiscardedBuffer(id, current, faults) => AbsDiscardBuffer(s, id, current);
  }

  lemma BeginAbs(disk: map<Key, Text>)
    ensures Abs(Begin(disk)) == Sync(disk, map[], map[]) && Faultless(Begin(disk)) && Inv(Begin(disk))
  {
    assert ((disk + map[]) - {}) + map[] == disk;
  }

  /** In every run without faults, the pending work carried out is the synchronous
      machine's disk; and where nothing is staged or in flight the disk itself is. */
  lemma {:induction false} RunRefines(disk: map<Key, Text>, events: seq<Event>)
    requires AllClean(events)
    ensures Abs(Run(Begin(disk), events)) == SyncRun(Sync(disk, map[], map[]), events)
      && Faultless(Run(Begin(disk), events))
    ensures Quiet(Run(Begin(disk), events)) ==>
      Run(Begin(disk), events).disk == SyncRun(Sync(disk, map[], map[]), events).disk
  {
    BeginAbs(disk);
    RunInv(disk, events);
    if events != [] {
      var n := |events| - 1;
      RunRefines(disk, events[..n]);
      RunInv(disk, events[..n]);
      DoRefines(Run(Begin(disk), events[..n]), events[n]);
    }
    if Quiet(Run(Begin(disk), events)) {
      QuietAbs(Run(Begin(disk), events));
    }
  }

  /** And every pass of it reports what the synchronous machine's does. */
  lemma RunReports(disk: map<Key, Text>, events: seq<Event>, e: Event)
    requires AllClean(events) && Clean(e) && Sane(e)
    ensures Reported(Run(Begin(disk), events), e) == SyncReported(SyncRun(Sync(disk, map[], map[]), events), e)
  {
    RunRefines(disk, events);
    RunInv(disk, events);
    DoRefines(Run(Begin(disk), events), e);
  }

  // ----- protection -----

  /** A pass's unwritten copies are of no moved buffer. */
  ghost predicate MovedWritten(s: State, buffers: seq<Buffer>, faults: Faults) {
    var g := Gathering(s, buffers, faults); NoneMoved(g, Writable(g.writes, faults.unwritable), s.cache.written)
  }

  /** Buffers hold what the history says, passes write the copies of moved buffers,
      and a buffer adopts a file it holds; the rest may fail as it likes. */
  ghost predicate Fits(s: State, e: Event, history: History) {
    match e
    case Swept(buffers, faults, panics) => TextsFit(buffers, history)
      && MovedWritten(Settle(s, faults, panics).0, buffers, faults)
    case StagedPass(buffers, faults) => TextsFit(buffers, history) && MovedWritten(s, buffers, faults)
    case Adopted(id, at, faults, panics) =>
      at.Some? ==>
        var disk := SettleQuietly(s, faults, panics).disk;
          at.value.0 in disk && disk[at.value.0] == history(id, at.value.1)
    case _ => true
  }

  lemma DoProtects(s: State, e: Event, history: History)
    requires Inv(s) && Sane(e) && Protected(s, history) && Fits(s, e, history)
    ensures Protected(Do(s, e), history)
  {
    match e
    case Swept(buffers, faults, panics) =>
      SettleInv(s, faults, panics);
      SettleCovers(s, faults, panics, history);
      PassCoversMoved(Settle(s, faults, panics).0, buffers, Now, faults, history);
    case StagedPass(buffers, faults) => StageCovers(s, buffers, faults, history);
    case Began(spawned, faults) => BeginCovers(s, spawned, faults, history);
    case Landed(ok) => LandCovers(s, ok, history);
    case Panicked => BatchCovers(s, Panic(s), history);
    case Collected(faults) => CollectCovers(s, faults, history);
    case Settled(faults, panics) => SettleCovers(s, faults, panics, history);
    case Adopted(id, at, faults, panics) => AdoptCovers(s, id, at, faults, panics, history);
    case DiscardedPath(key, faults) => DiscardPathCovers(s, key, faults.unremovable, history);
    case DiscardedBuffer(id, current, faults) => DiscardBufferCovers(s, id, current, faults.unremovable, history);
  }

  lemma StageCovers(s: State, buffers: seq<Buffer>, faults: Faults, history: History)
    requires Inv(s) && DistinctIds(buffers) && Protected(s, history) && TextsFit(buffers, history)
      && MovedWritten(s, buffers, faults)
    ensures Protected(Stage(s, buffers, faults).0, history)
  {
    PassCoversMoved(s, buffers, Staged, faults, history);
    BatchCovers(Pass(s, buffers, Staged, faults).0, Stage(s, buffers, faults).0, history);
  }

  lemma CollectCovers(s: State, faults: Faults, history: History)
    requires Inv(s) && Protected(s, history)
    ensures Protected(Collect(s, faults).0, history)
  {
    TakeCovers(s, false, faults, false, history);
    ReportsCover(TakeInstaller(s, false, faults, false).0, [], history);
  }

  ghost predicate AllFit(s: State, events: seq<Event>, history: History) {
    forall i :: 0 <= i < |events| ==> Fits(Run(s, events[..i]), events[i], history)
  }

  /** In every run whose passes write the copies of moved buffers, so in every run
      whose writes succeed, a buffer recorded as written is protected at that
      revision, whatever installs and removals fail. */
  lemma {:induction false} RunProtects(disk: map<Key, Text>, events: seq<Event>, history: History)
    requires AllSane(events) && AllFit(Begin(disk), events, history)
    ensures Protected(Run(Begin(disk), events), history)
  {
    if events != [] {
      var n := |events| - 1;
      assert forall i :: 0 <= i <= n ==> events[..n][..i] == events[..i];
      RunProtects(disk, events[..n], history);
      RunInv(disk, events[..n]);
      DoProtects(Run(Begin(disk), events[..n]), events[n], history);
    }
  }

  // ----- crash data -----

  /** The event claims the key, or cannot look for its file. */
  ghost predicate Touches(e: Event, key: Key) {
    match e
    case Swept(_, faults, _) => key in faults.unreadable
    case StagedPass(_, faults) => key in faults.unreadable
    case Adopted(_, at, _, _) => at.Some? && at.value.0 == key
    case DiscardedPath(k, _) => k == key
    case _ => false
  }

  lemma WithoutAbsent(crash: map<Key, Text>, key: Key)
    requires key !in crash
    ensures crash - {key} == crash
  {
  }

  lemma DoKeeps(s: State, e: Event, crash: map<Key, Text>)
    requires Unclaimed(s, crash) && Sane(e) && forall k :: k in crash ==> !Touches(e, k)
    ensures Unclaimed(Do(s, e), crash)
  {
    match e
    case Swept(buffers, faults, panics) =>
      SettleKeeps(s, faults, panics, crash);
      PassKeeps(Settle(s, faults, panics).0, buffers, Now, faults, crash);
    case StagedPass(buffers, faults) => PassKeeps(s, buffers, Staged, faults, crash);
    case Began(spawned, faults) => BeginKeeps(s, spawned, faults, crash);
    case Landed(ok) => LandKeeps(s, ok, crash);
    case Panicked =>
    case Collected(faults) => TakeKeeps(s, false, faults, false, crash);
    case Settled(faults, panics) => SettleKeeps(s, faults, panics, crash);
    case Adopted(id, at, faults, panics) =>
      AdoptKeeps(s, id, at, faults, panics, crash);
      if at.Some? {
        WithoutAbsent(crash, at.value.0);
      }
    case DiscardedPath(key, faults) =>
      DiscardPathKeeps(s, key, faults.unremovable, crash);
      WithoutAbsent(crash, key);
    case DiscardedBuffer(id, current, faults) => DiscardBufferKeeps(s, id, current, faults.unremovable, crash);
  }

  lemma {:induction false} RunUnclaimed(disk: map<Key, Text>, events: seq<Event>, key: Key)
    requires AllSane(events) && key in disk && forall e :: e in events ==> !Touches(e, key)
    ensures Unclaimed(Run(Begin(disk), events), map[key := disk[key]])
  {
    if events != [] {
      var n := |events| - 1;
      RunUnclaimed(disk, events[..n], key);
      DoKeeps(Run(Begin(disk), events[..n]), events[n], map[key := disk[key]]);
    }
  }

  /** In every run, whatever fails to be written, installed or removed, a recovery
      file found at the start is there as it was until a claim names its key. */
  lemma CrashDataIsKept(disk: map<Key, Text>, events: seq<Event>, key: Key)
    requires AllSane(events) && key in disk && forall e :: e in events ==> !Touches(e, key)
    ensures key in Run(Begin(disk), events).disk && Run(Begin(disk), events).disk[key] == disk[key]
  {
    RunUnclaimed(disk, events, key);
  }

  lemma UnlookedForGathered(text: Text, key: Key, present: set<Key>)
    requires key !in present
    ensures var g := Gather([Buffer(0, Some(key), true, 0, text)], map[], map[], present);
      g.writes == [Copy(0, key, 0, text)] && g.orphans == {}
  {
    var buffer := Buffer(0, Some(key), true, 0, text);
    assert [buffer][..0] == [] && Gather([], map[], map[], present) == NothingGathered;
    assert Gather([buffer], map[], map[], present) == GatherOne(NothingGathered, buffer, map[], map[], present);
  }

  lemma UnlookedForPass(s: State, text: Text, key: Key)
    requires s.cache == NewCache
    ensures Pass(s, [Buffer(0, Some(key), true, 0, text)], Now, Faults({key}, {}, {}, {})).0.disk == s.disk[key := text]
  {
    var buffer, c := Buffer(0, Some(key), true, 0, text), Copy(0, key, 0, text);
    var g := Gather([buffer], map[], map[], Present(s, {key}));
    UnlookedForGathered(text, key, Present(s, {key}));
    assert [c][..0] == [] && [c][..1] == [c] && Writable([c], {}) == 1;
    var s1 := Cleared(s, g, {});
    assert s1.disk == s.disk;
    assert WriteAll(s1, [c], Now) == WriteOne(WriteAll(s1, [], Now), c, Now);
  }

  /** A file that cannot be looked for counts as absent, and is written over. */
  lemma UnlookedForIsLost(text: Text, other: Text, key: Key)
    ensures var buffer := Buffer(0, Some(key), true, 0, text);
      Run(Begin(map[key := other]), [Swept([buffer], Faults({key}, {}, {}, {}), false)]).disk == map[key := text]
  {
    var buffer, faults, s := Buffer(0, Some(key), true, 0, text), Faults({key}, {}, {}, {}), Begin(map[key := other]);
    var e := Swept([buffer], faults, false);
    var s1 := Settle(s, faults, false).0;
    assert s1.disk == s.disk && s1.cache == NewCache;
    UnlookedForPass(s1, text, key);
    assert [e][..0] == [] && Run(s, []) == s;
    assert Run(s, [e]) == Do(s, e);
  }

  // ----- a run that leaves a buffer unprotected -----

  lemma SettleNothing(s: State, faults: Faults)
    requires Quiet(s) && s.cache.unreported == []
    ensures Settle(s, faults, false).0 == s
  {
    assert s.disk + Texts([]) == s.disk && Absorbed(s.cache.written, []) == s.cache.written && Reports([]) == [];
    assert InstallStaged(s, faults) == s;
  }

  /** The one buffer, changed, of the file at a key. */
  function Changed(key: Key, revision: nat, text: Text): Buffer {
    Buffer(0, Some(key), true, revision, text)
  }

  /** A session that has written that buffer at a key. */
  function Held(key: Key, revision: nat, text: Text): State {
    State(NewCache.(written := map[0 := (key, revision)], owner := map[key := 0]), map[key := text])
  }

  lemma GatherLone(b: Buffer, written: map<Id, (Key, nat)>, owner: map<Key, Id>, present: set<Key>)
    ensures Gather([b], written, owner, present) == GatherOne(NothingGathered, b, written, owner, present)
  {
    assert [b][..0] == [] && Gather([], written, owner, present) == NothingGathered;
  }

  lemma FirstPass(key: Key, revision: nat, text: Text)
    ensures Sweep(Begin(map[]), [Changed(key, revision, text)], NoFaults, false).0 == Held(key, revision, text)
  {
    var s, b, c := Begin(map[]), Changed(key, revision, text), Copy(0, key, revision, text);
    SettleNothing(s, NoFaults);
    GatherLone(b, map[], map[], Present(s, {}));
    var g := Gather([b], map[], map[], Present(s, {}));
    assert g.writes == [c] && g.orphans == {};
    assert [c][..1] == [c] && Writable([c], {}) == 1;
    assert Cleared(s, g, {}) == s;
    WriteLone(s, c);
  }

  lemma WriteLone(s: State, c: Copy)
    ensures WriteAll(s, [c], Now) == WriteOne(s, c, Now)
  {
    assert [c][..0] == [] && WriteAll(s, [], Now) == s;
  }

  lemma MovedPass(key: Key, moved: Key, revision: nat, text: Text)
    requires key != moved
    ensures Sweep(Held(key, revision, text), [Changed(moved, revision, text)], Faults({}, {}, {moved}, {}), false).0 ==
      State(NewCache.(written := map[0 := (key, revision)]), map[])
  {
    var s, b, c := Held(key, revision, text), Changed(moved, revision, text), Copy(0, moved, revision, text);
    var faults := Faults({}, {}, {moved}, {});
    SettleNothing(s, faults);
    GatherLone(b, s.cache.written, s.cache.owner, Present(s, {}));
    var g := Gather([b], s.cache.written, s.cache.owner, Present(s, {}));
    assert g.writes == [c] && g.orphans == {key} && g.live == {0};
    assert Writable(g.writes, {moved}) == 0 && g.writes[..0] == [];
    var s1 := Cleared(s, g, {});
    assert s1.cache.owner == map[] && s1.disk == map[] && s1.cache.written == s.cache.written;
    assert s1 == State(NewCache.(written := map[0 := (key, revision)]), map[]);
  }

  /** A buffer moves to another path and its copy there cannot be written: the copy at the
      old path is gone, and the buffer still counts as written there. */
  lemma MovedIsUnprotected(key: Key, moved: Key, revision: nat, text: Text, history: History)
    requires key != moved
    ensures var s := Run(Begin(map[]), [Swept([Changed(key, revision, text)], NoFaults, false),
                                        Swept([Changed(moved, revision, text)], Faults({}, {}, {moved}, {}), false)]);
      && s.cache.written == map[0 := (key, revision)] && key !in s.cache.owner && s.disk == map[] && Quiet(s)
      && !Protected(s, history)
  {
    var first := Swept([Changed(key, revision, text)], NoFaults, false);
    var second := Swept([Changed(moved, revision, text)], Faults({}, {}, {moved}, {}), false);
    FirstPass(key, revision, text);
    MovedPass(key, moved, revision, text);
    assert [first][..0] == [] && [first, second][..1] == [first];
    assert Run(Begin(map[]), [first]) == Held(key, revision, text);
  }
}

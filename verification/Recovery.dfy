/** Autosave's recovery copies as values (src/autosave.rs): what this session wrote
    and owns, the copies staged and in an installer's batch, and the disk. */
module Recovery {
  import opened Options

  type Id = nat

  /** The key of a path's recovery file: an injective hash of the path. */
  type Key = nat

  type Text = string

  /** A recovery copy: the buffer and revision it holds, and its text. */
  datatype Copy = Copy(id: Id, key: Key, revision: nat, text: Text)

  /** A thread installing copies in order: how many it has met, and those of them
      that failed; and whether it panicked. */
  datatype Installer = Installer(copies: seq<Copy>, met: nat, failed: seq<Copy>, panicked: bool) {
    predicate Finished() {
      panicked || met >= |copies|
    }
  }

  datatype Report = CopyFailed(key: Key) | InstallerPanicked | Summed(first: Report, more: nat)

  /** The session's bookkeeping: where each buffer's last copy is and its revision,
      which buffer owns each key, the staged copies, oldest first, the installer, the
      keys to remove once its batch is taken, and the failures to report. */
  datatype Cache = Cache(written: map<Id, (Key, nat)>, owner: map<Key, Id>, staged: seq<Copy>,
                         installer: Option<Installer>,
                         retiring: set<Key>, unreported: seq<Report>, passFailed: bool)

  const NewCache := Cache(map[], map[], [], None, {}, [], false)

  /** The bookkeeping and the recovery files on disk. */
  datatype State = State(cache: Cache, disk: map<Key, Text>)

  /** A buffer as a pass meets it: its path's key, if it visits a file. */
  datatype Buffer = Buffer(id: Id, key: Option<Key>, modified: bool, revision: nat, text: Text)

  /** What goes wrong during one operation: keys whose file cannot be looked for,
      removed or written, and copies that cannot be installed. */
  datatype Faults = Faults(unreadable: set<Key>, unremovable: set<Key>, unwritable: set<Key>, uninstallable: set<Key>)

  const NoFaults := Faults({}, {}, {}, {})

  function KeysOf(copies: seq<Copy>): set<Key> {
    set c | c in copies :: c.key
  }

  function Batch(cache: Cache): seq<Copy> {
    if cache.installer.Some? then cache.installer.value.copies else []
  }

  // ----- installing -----

  /** The copies that get in. */
  function Good(copies: seq<Copy>, bad: set<Key>): seq<Copy> {
    if copies == [] then []
    else
      var n := |copies| - 1;
      Good(copies[..n], bad) + if copies[n].key in bad then [] else [copies[n]]
  }

  function Bad(copies: seq<Copy>, bad: set<Key>): seq<Copy> {
    if copies == [] then []
    else
      var n := |copies| - 1;
      Bad(copies[..n], bad) + if copies[n].key in bad then [copies[n]] else []
  }

  /** The copies' texts at their keys, a later one over an earlier. */
  function Texts(copies: seq<Copy>): map<Key, Text> {
    if copies == [] then map[]
    else
      var n := |copies| - 1;
      Texts(copies[..n])[copies[n].key := copies[n].text]
  }

  /** The buffers' records once copies have failed: an entry that names one goes. */
  function Absorbed(written: map<Id, (Key, nat)>, failed: seq<Copy>): map<Id, (Key, nat)> {
    map id | id in written && !(exists f :: f in failed && f.id == id && written[id] == (f.key, f.revision)) ::
    written[id]
  }

  function Reports(failed: seq<Copy>): seq<Report> {
    seq(|failed|, i requires 0 <= i < |failed| => CopyFailed(failed[i].key))
  }

  function Absorb(cache: Cache, failed: seq<Copy>): Cache {
    cache.(written := Absorbed(cache.written, failed), unreported := cache.unreported + Reports(failed))
  }

  // ----- retiring -----

  /** Retire the copies at `keys` without waiting: staged ones are dropped, and files
      removed now, or, while the installer's batch holds a copy, once it is taken. */
  function Retire(s: State, keys: set<Key>, unremovable: set<Key>): State {
    var later := keys * KeysOf(Batch(s.cache));
    State(s.cache.(staged := Good(s.cache.staged, keys), retiring := s.cache.retiring + later),
          s.disk - (keys - later - unremovable))
  }

  // ----- taking the installer -----

  /** The installer takes its next copy to its key, or fails to. */
  function Land(s: State, ok: bool): State {
    match s.cache.installer
    case None => s
    case Some(i) =>
      if i.Finished() then s
      else
        var c := i.copies[i.met];
        State(s.cache.(installer := Some(i.(met := i.met + 1, failed := if ok then i.failed else i.failed + [c]))),
              if ok then s.disk[c.key := c.text] else s.disk)
  }

  function Panic(s: State): State {
    match s.cache.installer
    case None => s
    case Some(i) => s.(cache := s.cache.(installer := Some(i.(panicked := true))))
  }

  /** The installer runs on to its end, unless it panics. */
  function Finish(s: State, faults: Faults, panics: bool): State {
    match s.cache.installer
    case None => s
    case Some(i) =>
      if i.Finished() then s
      else if panics then Panic(s)
      else
        var rest := i.copies[i.met..];
        State(s.cache.(installer := Some(i.(met := |i.copies|, failed := i.failed + Bad(rest, faults.uninstallable)))),
              s.disk + Texts(Good(rest, faults.uninstallable)))
  }

  /** Take an installer that has finished, and the removals its batch held back. */
  function Taken(s: State, unremovable: set<Key>): (State, nat)
    requires s.cache.installer.Some?
  {
    var i := s.cache.installer.value;
    var cache := s.cache.(installer := None);
    var absorbed := if i.panicked then cache.(written := map[], unreported := cache.unreported + [InstallerPanicked])
                    else Absorb(cache, i.failed);
    (State(absorbed.(retiring := {}), s.disk - (cache.retiring - unremovable)),
     if i.panicked || |i.failed| > |i.copies| then 0 else |i.copies| - |i.failed|)
  }

  /** Take the installer, waiting for it unless it has finished. */
  function TakeInstaller(s: State, wait: bool, faults: Faults, panics: bool): (State, Option<nat>) {
    if s.cache.installer.None? || (!wait && !s.cache.installer.value.Finished()) then (s, None)
    else
      var (s', n) := Taken(Finish(s, faults, panics), faults.unremovable);
      (s', Some(n))
  }

  datatype Result<T> = Ok(value: T) | Err(error: Report)

  function Drained(cache: Cache): (Cache, Option<Report>) {
    var u := cache.unreported;
    (cache.(unreported := []), if u == [] then None else if |u| == 1 then Some(u[0]) else Some(Summed(u[0], |u| - 1)))
  }

  // ----- operations -----

  /** Install on this thread what is staged. */
  function InstallStaged(s: State, faults: Faults): State {
    var staged := s.cache.staged;
    State(Absorb(s.cache.(staged := []), Bad(staged, faults.uninstallable)),
          s.disk + Texts(Good(staged, faults.uninstallable)))
  }

  function Settle(s: State, faults: Faults, panics: bool): (State, Result<nat>) {
    var (s1, n) := TakeInstaller(s, true, faults, panics);
    var s2 := InstallStaged(s1, faults);
    var (cache, error) := Drained(s2.cache);
    (s2.(cache := cache),
     match error
     case Some(e) => Err(e)
     case None => Ok((if n.Some? then n.value else 0) + |Good(s1.cache.staged, faults.uninstallable)|))
  }

  function SettleQuietly(s: State, faults: Faults, panics: bool): State {
    var (s', r) := Settle(s, faults, panics);
    match r
    case Ok(_) => s'
    case Err(e) => s'.(cache := s'.cache.(unreported := s'.cache.unreported + [e]))
  }

  function Collect(s: State, faults: Faults): (State, Result<(nat, bool)>) {
    var (s1, n) := TakeInstaller(s, false, faults, false);
    var (cache, error) := Drained(s1.cache);
    (s1.(cache := cache),
     match error
     case Some(e) => Err(e)
     case None => Ok((if n.Some? then n.value else 0, n.Some? && !cache.passFailed)))
  }

  /** Hand the staged copies to an installer, or install them here where none can be
      started. */
  function BeginInstall(s: State, spawned: bool, faults: Faults): State {
    if s.cache.staged == [] || s.cache.installer.Some? then s
    else if spawned then s.(cache := s.cache.(staged := [], installer := Some(Installer(s.cache.staged, 0, [], false))))
    else InstallStaged(s, faults)
  }

  // ----- a pass -----

  /** A copy a pass is to write. */
  datatype Gathered = Gathered(writes: seq<Copy>, orphans: set<Key>, live: set<Id>, blocked: nat, conflicted: nat,
                               queued: map<Key, Id>)

  const NothingGathered := Gathered([], {}, {}, 0, 0, map[])

  /** What a pass decides for one buffer, given the keys whose file was found. */
  function GatherOne(g: Gathered, b: Buffer, written: map<Id, (Key, nat)>, owner: map<Key, Id>,
                     present: set<Key>): Gathered {
    var g := g.(live := g.live + {b.id});
    if b.key.None? || !b.modified then g
    else
      var key := b.key.value;
      var holder := if key in owner then Some(owner[key]) else if key in g.queued then Some(g.queued[key]) else None;
      if holder.Some? && holder.value != b.id then g.(conflicted := g.conflicted + 1)
      else if holder.None? && key in present then g.(blocked := g.blocked + 1)
      else if b.id in written && written[b.id] == (key, b.revision) then g
      else
        g.(orphans := g.orphans + (if b.id in written && written[b.id].0 != key then {written[b.id].0} else {}),
           queued := g.queued[key := b.id],
           writes := g.writes + [Copy(b.id, key, b.revision, b.text)])
  }

  /** What a pass over the buffers decides. */
  function Gather(buffers: seq<Buffer>, written: map<Id, (Key, nat)>, owner: map<Key, Id>,
                  present: set<Key>): Gathered {
    if buffers == [] then NothingGathered
    else GatherOne(Gather(buffers[..|buffers| - 1], written, owner, present), buffers[|buffers| - 1], written, owner,
                   present)
  }

  /** The unowned keys' files a pass finds: a key retiring behind an installer holds
      this session's copy until the installer is taken. */
  function Present(s: State, unreadable: set<Key>): set<Key> {
    s.disk.Keys - s.cache.retiring - unreadable
  }

  /** The buffers whose copies the pass drops: no longer in the registry. */
  function Dead(written: map<Id, (Key, nat)>, live: set<Id>): set<Id> {
    set id | id in written && id !in live
  }

  /** The keys the dead buffers own. */
  function DeadKeys(written: map<Id, (Key, nat)>, owner: map<Key, Id>, dead: set<Id>): set<Key> {
    set id | id in dead && id in written && written[id].0 in owner && owner[written[id].0] == id :: written[id].0
  }

  function Minus<K, V>(m: map<K, V>, keys: set<K>): map<K, V> {
    m - keys
  }

  /** Before the writes: orphaned keys and dead buffers' keys are retired. */
  function Cleared(s: State, g: Gathered, unremovable: set<Key>): State {
    var s1 := Retire(s, g.orphans, unremovable);
    var s1 := s1.(cache := s1.cache.(owner := Minus(s1.cache.owner, g.orphans)));
    var dead := Dead(s1.cache.written, g.live);
    var keys := DeadKeys(s1.cache.written, s1.cache.owner, dead);
    var s2 := Retire(s1, keys, unremovable);
    s2.(cache := s2.cache.(owner := Minus(s2.cache.owner, keys), written := Minus(s2.cache.written, dead)))
  }

  datatype Mode = Now | Staged

  function WriteOne(s: State, c: Copy, mode: Mode): State {
    var cache := s.cache.(owner := s.cache.owner[c.key := c.id],
                          written := s.cache.written[c.id := (c.key, c.revision)]);
    match mode
    case Now => State(cache, s.disk[c.key := c.text])
    case Staged => s.(cache := cache.(staged := Good(cache.staged, {c.key}) + [c]))
  }

  /** How many of the copies are written before one cannot be. */
  function Writable(writes: seq<Copy>, unwritable: set<Key>): (n: nat)
    ensures n <= |writes| && (forall i :: 0 <= i < n ==> writes[i].key !in unwritable)
      && (n < |writes| ==> writes[n].key in unwritable)
  {
    if writes == [] || writes[0].key in unwritable then 0 else 1 + Writable(writes[1..], unwritable)
  }

  function WriteAll(s: State, writes: seq<Copy>, mode: Mode): State {
    if writes == [] then s else WriteOne(WriteAll(s, writes[..|writes| - 1], mode), writes[|writes| - 1], mode)
  }

  /** What a pass reports: how many it wrote, blocked and conflicted; or the key it
      could not write. */
  datatype Passed = Passed(written: nat, blocked: nat, conflicted: nat) | WriteFailed(key: Key)

  /** One pass over the buffers. A copy that cannot be written ends it. */
  function Pass(s: State, buffers: seq<Buffer>, mode: Mode, faults: Faults): (State, Passed) {
    var g := Gather(buffers, s.cache.written, s.cache.owner, Present(s, faults.unreadable));
    var n := Writable(g.writes, faults.unwritable);
    (WriteAll(Cleared(s, g, faults.unremovable), g.writes[..n], mode),
     if n < |g.writes| then WriteFailed(g.writes[n].key) else Passed(n, g.blocked, g.conflicted))
  }

  /** The periodic pass: its copies are staged. */
  function Stage(s: State, buffers: seq<Buffer>, faults: Faults): (State, Passed) {
    var (s', r) := Pass(s, buffers, Staged, faults);
    (s'.(cache := s'.cache.(passFailed := r.WriteFailed?)), r)
  }

  /** The forced pass: everything staged goes in first, and each copy is in place. */
  function Sweep(s: State, buffers: seq<Buffer>, faults: Faults, panics: bool): (State, Option<Report>, Passed) {
    var (s1, r) := Settle(s, faults, panics);
    var (s2, p) := Pass(s1, buffers, Now, faults);
    (s2, if r.Err? then Some(r.error) else None, p)
  }

  // ----- claims -----

  /** The buffer takes the recovery file at its path's key for its own. */
  function Adopt(s: State, id: Id, at: Option<(Key, nat)>, faults: Faults, panics: bool): State {
    var s := SettleQuietly(s, faults, panics);
    match at
    case None => s
    case Some((key, revision)) =>
      var kept := map other | other in s.cache.written && (other == id || s.cache.written[other].0 != key) ::
        s.cache.written[other];
      s.(cache := s.cache.(written := kept[id := (key, revision)], owner := s.cache.owner[key := id]))
  }

  /** Remove the recovery file at a key and every claim on it. */
  function DiscardPath(s: State, key: Key, unremovable: set<Key>): State {
    var kept := map id | id in s.cache.written && s.cache.written[id].0 != key :: s.cache.written[id];
    Retire(s.(cache := s.cache.(owner := Minus(s.cache.owner, {key}), written := kept)), {key}, unremovable)
  }

  /** The keys a buffer's recovery copy may be at: where it was last written, and
      where its path, if it is still open, now is. */
  function BufferKeys(s: State, id: Id, current: Option<Key>): set<Key> {
    (if id in s.cache.written then {s.cache.written[id].0} else {}) + (if current.Some? then {current.value} else {})
  }

  function OwnedBy(owner: map<Key, Id>, keys: set<Key>, id: Id): set<Key> {
    set k | k in keys && k in owner && owner[k] == id
  }

  /** Retire the recovery copies a buffer owns: it was saved or killed. */
  function DiscardBuffer(s: State, id: Id, current: Option<Key>, unremovable: set<Key>): State {
    var keys := OwnedBy(s.cache.owner, BufferKeys(s, id, current), id);
    var s' := Retire(s, keys, unremovable);
    s'.(cache := s'.cache.(owner := Minus(s'.cache.owner, keys), written := Minus(s'.cache.written, {id})))
  }
}

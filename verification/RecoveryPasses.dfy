/** What an autosave pass decides and does, buffer by buffer (src/autosave.rs): which
    buffers it writes, blocks or finds in conflict, and what is recorded, owned and on
    disk once it is done. */
module RecoveryPasses {
  import opened Options
  import opened Recovery
  import opened RecoveryInvariants
  import opened RecoverySync
  import opened RecoveryProtection
  import opened RecoveryRuns

  // ----- what is decided for each buffer -----

  /** A buffer with changes and a file to keep them from. */
  ghost predicate Unsaved(b: Buffer) {
    b.key.Some? && b.modified
  }

  function CopyOf(b: Buffer): Copy
    requires b.key.Some?
  {
    Copy(b.id, b.key.value, b.revision, b.text)
  }

  /** A buffer before `i` is written at the key. */
  ghost predicate QueuedBefore(buffers: seq<Buffer>, written: map<Id, (Key, nat)>, owner: map<Key, Id>,
                               present: set<Key>, i: nat, key: Key)
    requires i <= |buffers|
    decreases i, 0
  {
    exists j: nat :: j < i && buffers[j].key == Some(key) && Writes(buffers, written, owner, present, j)
  }

  /** Another buffer has the key: it owns it, or nobody does and it is written first. */
  ghost predicate Conflicts(buffers: seq<Buffer>, written: map<Id, (Key, nat)>, owner: map<Key, Id>, present: set<Key>,
                            i: nat)
    requires i < |buffers|
    decreases i, 1
  {
    && Unsaved(buffers[i])
    && var key := buffers[i].key.value;
       if key in owner then owner[key] != buffers[i].id
       else QueuedBefore(buffers, written, owner, present, i, key)
  }

  /** Nobody has the key, and a file is there that this session did not write. */
  ghost predicate Blocks(buffers: seq<Buffer>, written: map<Id, (Key, nat)>, owner: map<Key, Id>, present: set<Key>,
                         i: nat)
    requires i < |buffers|
    decreases i, 1
  {
    && Unsaved(buffers[i])
    && buffers[i].key.value !in owner
    && !QueuedBefore(buffers, written, owner, present, i, buffers[i].key.value)
    && buffers[i].key.value in present
  }

  /** The buffer is unsaved, its key is its to write, and what is recorded for it is
      not this revision at this key. */
  ghost predicate Writes(buffers: seq<Buffer>, written: map<Id, (Key, nat)>, owner: map<Key, Id>, present: set<Key>,
                         i: nat)
    requires i < |buffers|
    decreases i, 2
  {
    && Unsaved(buffers[i])
    && !Conflicts(buffers, written, owner, present, i)
    && !Blocks(buffers, written, owner, present, i)
    && !(buffers[i].id in written && written[buffers[i].id] == (buffers[i].key.value, buffers[i].revision))
  }

  /** The buffers before `n` that are written, in order. */
  ghost function Writing(buffers: seq<Buffer>, written: map<Id, (Key, nat)>, owner: map<Key, Id>, present: set<Key>,
                         n: nat): (at: seq<nat>)
    requires n <= |buffers|
    ensures forall s, t :: 0 <= s < t < |at| ==> at[s] < at[t]
    ensures forall t :: 0 <= t < |at| ==> at[t] < n && Writes(buffers, written, owner, present, at[t])
    ensures forall i: nat :: i < n && Writes(buffers, written, owner, present, i) ==> i in at
  {
    if n == 0 then []
    else
      var rest := Writing(buffers, written, owner, present, n - 1);
      if Writes(buffers, written, owner, present, n - 1) then rest + [n - 1] else rest
  }

  ghost function Copies(buffers: seq<Buffer>, at: seq<nat>): seq<Copy>
    requires forall t :: 0 <= t < |at| ==> at[t] < |buffers| && buffers[at[t]].key.Some?
  {
    seq(|at|, t requires 0 <= t < |at| => CopyOf(buffers[at[t]]))
  }

  ghost function Conflicting(buffers: seq<Buffer>, written: map<Id, (Key, nat)>, owner: map<Key, Id>,
                             present: set<Key>, n: nat): set<nat>
    requires n <= |buffers|
  {
    set i: nat | i < n && Conflicts(buffers, written, owner, present, i)
  }

  ghost function Blocked(buffers: seq<Buffer>, written: map<Id, (Key, nat)>, owner: map<Key, Id>, present: set<Key>,
                         n: nat): set<nat>
    requires n <= |buffers|
  {
    set i: nat | i < n && Blocks(buffers, written, owner, present, i)
  }

  /** The keys that buffers written elsewhere leave behind. */
  ghost function LeftBehind(buffers: seq<Buffer>, written: map<Id, (Key, nat)>, owner: map<Key, Id>,
                            present: set<Key>, n: nat): set<Key>
    requires n <= |buffers|
  {
    set i: nat | i < n && Writes(buffers, written, owner, present, i) && buffers[i].id in written
      && Some(written[buffers[i].id].0) != buffers[i].key :: written[buffers[i].id].0
  }

  /** The keys queued are those of the buffers written, each by one of them. */
  ghost predicate QueueIs(buffers: seq<Buffer>, written: map<Id, (Key, nat)>, owner: map<Key, Id>, present: set<Key>,
                          n: nat, queued: map<Key, Id>)
    requires n <= |buffers|
  {
    && (forall k :: k in queued <==> QueuedBefore(buffers, written, owner, present, n, k))
    && (forall k :: k in queued ==> exists j :: 0 <= j < n && buffers[j].id == queued[k])
  }

  lemma QueueNext(buffers: seq<Buffer>, written: map<Id, (Key, nat)>, owner: map<Key, Id>, present: set<Key>, n: nat,
                  queued: map<Key, Id>)
    requires n < |buffers| && QueueIs(buffers, written, owner, present, n, queued)
    ensures QueueIs(buffers, written, owner, present, n + 1,
                    if Writes(buffers, written, owner, present, n) then queued[buffers[n].key.value := buffers[n].id]
                    else queued)
  {
    forall k: Key ensures QueuedBefore(buffers, written, owner, present, n + 1, k) <==>
      QueuedBefore(buffers, written, owner, present, n, k)
      || (Writes(buffers, written, owner, present, n) && buffers[n].key == Some(k))
    {
      QueuedNext(buffers, written, owner, present, n, k);
    }
  }

  lemma QueuedNext(buffers: seq<Buffer>, written: map<Id, (Key, nat)>, owner: map<Key, Id>, present: set<Key>, n: nat,
                   k: Key)
    requires n < |buffers|
    ensures QueuedBefore(buffers, written, owner, present, n + 1, k) <==>
      QueuedBefore(buffers, written, owner, present, n, k)
      || (Writes(buffers, written, owner, present, n) && buffers[n].key == Some(k))
  {
    if j: nat :| j < n && buffers[j].key == Some(k) && Writes(buffers, written, owner, present, j) {
      assert j < n + 1;
    }
  }

  lemma DecidedOne(buffers: seq<Buffer>, written: map<Id, (Key, nat)>, owner: map<Key, Id>, present: set<Key>, n: nat,
                   g: Gathered)
    requires n < |buffers| && DistinctIds(buffers) && QueueIs(buffers, written, owner, present, n, g.queued)
    ensures var b, w := buffers[n], Writes(buffers, written, owner, present, n);
      GatherOne(g, b, written, owner, present) ==
        Gathered(g.writes + (if w then [CopyOf(b)] else []),
                 g.orphans + (if w && b.id in written && Some(written[b.id].0) != b.key then {written[b.id].0} else {}),
                 g.live + {b.id},
                 g.blocked + (if Blocks(buffers, written, owner, present, n) then 1 else 0),
                 g.conflicted + (if Conflicts(buffers, written, owner, present, n) then 1 else 0),
                 if w then g.queued[b.key.value := b.id] else g.queued)
  {
    var b := buffers[n];
    assert g.writes + [] == g.writes && g.orphans + {} == g.orphans;
    if b.key.Some? {
      assert b.key.value in g.queued <==> QueuedBefore(buffers, written, owner, present, n, b.key.value);
      assert b.key.value in g.queued ==> g.queued[b.key.value] != b.id;
    }
  }

  lemma WritingNext(buffers: seq<Buffer>, written: map<Id, (Key, nat)>, owner: map<Key, Id>, present: set<Key>, n: nat)
    requires n < |buffers|
    ensures Copies(buffers, Writing(buffers, written, owner, present, n + 1)) ==
      Copies(buffers, Writing(buffers, written, owner, present, n)) +
      if Writes(buffers, written, owner, present, n) then [CopyOf(buffers[n])] else []
    ensures LeftBehind(buffers, written, owner, present, n + 1) == LeftBehind(buffers, written, owner, present, n) +
      if Writes(buffers, written, owner, present, n) && buffers[n].id in written
        && Some(written[buffers[n].id].0) != buffers[n].key
      then {written[buffers[n].id].0} else {}
  {
  }

  lemma CountsNext(buffers: seq<Buffer>, written: map<Id, (Key, nat)>, owner: map<Key, Id>, present: set<Key>, n: nat)
    requires n < |buffers|
    ensures |Conflicting(buffers, written, owner, present, n + 1)| ==
      |Conflicting(buffers, written, owner, present, n)| +
      if Conflicts(buffers, written, owner, present, n) then 1 else 0
    ensures |Blocked(buffers, written, owner, present, n + 1)| ==
      |Blocked(buffers, written, owner, present, n)| + if Blocks(buffers, written, owner, present, n) then 1 else 0
  {
    OneMore(Conflicting(buffers, written, owner, present, n), Conflicting(buffers, written, owner, present, n + 1), n,
            Conflicts(buffers, written, owner, present, n));
    OneMore(Blocked(buffers, written, owner, present, n), Blocked(buffers, written, owner, present, n + 1), n,
            Blocks(buffers, written, owner, present, n));
  }

  lemma OneMore(a: set<nat>, b: set<nat>, n: nat, more: bool)
    requires n !in a && forall i :: i in b <==> i in a || (more && i == n)
    ensures |b| == |a| + if more then 1 else 0
  {
    assert b == a + if more then {n} else {};
  }

  /** What a pass gathers, by what it decides for each of the buffers before `n`. */
  ghost predicate Decided(buffers: seq<Buffer>, written: map<Id, (Key, nat)>, owner: map<Key, Id>, present: set<Key>,
                          n: nat, g: Gathered)
    requires n <= |buffers|
  {
    && g.writes == Copies(buffers, Writing(buffers, written, owner, present, n))
    && g.conflicted == |Conflicting(buffers, written, owner, present, n)|
    && g.blocked == |Blocked(buffers, written, owner, present, n)|
    && g.orphans == LeftBehind(buffers, written, owner, present, n)
    && g.live == IdsAmong(buffers[..n])
  }

  /** A pass decides for each buffer what its key, the key's owner, the file there and
      its record say, and counts the buffers it blocks and finds in conflict. */
  lemma {:induction false} GatherExactly(buffers: seq<Buffer>, written: map<Id, (Key, nat)>, owner: map<Key, Id>,
                                         present: set<Key>, n: nat)
    requires DistinctIds(buffers) && n <= |buffers|
    ensures Decided(buffers, written, owner, present, n, Gather(buffers[..n], written, owner, present))
    ensures QueueIs(buffers, written, owner, present, n, Gather(buffers[..n], written, owner, present).queued)
  {
    if n > 0 {
      var m, g := n - 1, Gather(buffers[..n - 1], written, owner, present);
      assert buffers[..n][..m] == buffers[..m];
      GatherExactly(buffers, written, owner, present, m);
      DecidedOne(buffers, written, owner, present, m, g);
      QueueNext(buffers, written, owner, present, m, g.queued);
      WritingNext(buffers, written, owner, present, m);
      CountsNext(buffers, written, owner, present, m);
      assert IdsAmong(buffers[..n]) == IdsAmong(buffers[..m]) + {buffers[m].id};
    }
  }

  // ----- what a pass does -----

  /** The buffer is written, and no write before it fails, nor its own. */
  ghost predicate Made(buffers: seq<Buffer>, written: map<Id, (Key, nat)>, owner: map<Key, Id>, present: set<Key>,
                       unwritable: set<Key>, i: nat)
    requires i < |buffers|
  {
    && Writes(buffers, written, owner, present, i)
    && forall j: nat :: j <= i && Writes(buffers, written, owner, present, j) ==> buffers[j].key.value !in unwritable
  }

  lemma MadeAt(buffers: seq<Buffer>, written: map<Id, (Key, nat)>, owner: map<Key, Id>, present: set<Key>,
               unwritable: set<Key>, at: seq<nat>, writes: seq<Copy>, t: nat)
    requires at == Writing(buffers, written, owner, present, |buffers|) && writes == Copies(buffers, at) && t < |at|
    ensures Made(buffers, written, owner, present, unwritable, at[t]) <==> t < Writable(writes, unwritable)
  {
    var n := Writable(writes, unwritable);
    if t < n {
      forall j: nat | j <= at[t] && Writes(buffers, written, owner, present, j)
        ensures buffers[j].key.value !in unwritable
      {
        var u :| 0 <= u < |at| && at[u] == j;
        assert writes[u].key == buffers[j].key.value;
      }
    } else {
      assert Writes(buffers, written, owner, present, at[n]) && writes[n].key == buffers[at[n]].key.value;
      assert at[n] <= at[t];
    }
  }

  lemma MadeIsDone(buffers: seq<Buffer>, written: map<Id, (Key, nat)>, owner: map<Key, Id>, present: set<Key>,
                   unwritable: set<Key>, writes: seq<Copy>, i: nat)
    requires writes == Copies(buffers, Writing(buffers, written, owner, present, |buffers|)) && i < |buffers|
    requires Made(buffers, written, owner, present, unwritable, i)
    ensures CopyOf(buffers[i]) in writes[..Writable(writes, unwritable)]
  {
    var at, n := Writing(buffers, written, owner, present, |buffers|), Writable(writes, unwritable);
    var t :| 0 <= t < |at| && at[t] == i;
    MadeAt(buffers, written, owner, present, unwritable, at, writes, t);
    assert writes[..n][t] == CopyOf(buffers[i]);
  }

  lemma UnmadeIsNot(buffers: seq<Buffer>, written: map<Id, (Key, nat)>, owner: map<Key, Id>, present: set<Key>,
                    unwritable: set<Key>, writes: seq<Copy>, i: nat, c: Copy)
    requires writes == Copies(buffers, Writing(buffers, written, owner, present, |buffers|)) && i < |buffers|
    requires DistinctIds(buffers) && !Made(buffers, written, owner, present, unwritable, i)
    requires c in writes[..Writable(writes, unwritable)]
    ensures c.id != buffers[i].id
  {
    var at, n := Writing(buffers, written, owner, present, |buffers|), Writable(writes, unwritable);
    var t :| 0 <= t < n && writes[t] == c;
    MadeAt(buffers, written, owner, present, unwritable, at, writes, t);
    assert buffers[at[t]].id == c.id && at[t] != i;
  }

  lemma {:induction false} RecordedAs(w: map<Id, (Key, nat)>, writes: seq<Copy>, c: Copy)
    requires OneEach(writes) && c in writes
    ensures c.id in Recorded(w, writes) && Recorded(w, writes)[c.id] == (c.key, c.revision)
  {
    var n := |writes| - 1;
    if writes[n].id == c.id {
      assert writes[n] in writes;
    } else {
      assert writes == writes[..n] + [writes[n]];
      RecordedAs(w, writes[..n], c);
    }
  }

  lemma {:induction false} RecordedElse(w: map<Id, (Key, nat)>, writes: seq<Copy>, id: Id)
    requires forall c :: c in writes ==> c.id != id
    ensures id in Recorded(w, writes) <==> id in w
    ensures id in w ==> Recorded(w, writes)[id] == w[id]
  {
    if writes != [] {
      RecordedElse(w, writes[..|writes| - 1], id);
    }
  }

  /** The copy written at a key is the newest there, and its buffer owns the key. */
  lemma {:induction false} WriteAllNewest(s: State, writes: seq<Copy>, mode: Mode, c: Copy)
    requires DistinctKeys(writes) && c in writes && (mode == Now ==> Quiet(s))
    ensures Newest(WriteAll(s, writes, mode), c)
  {
    var n := |writes| - 1;
    WriteAllQuiet(s, writes[..n], mode);
    if c == writes[n] {
      WrittenNewest(WriteAll(s, writes[..n], mode), c, mode);
    } else {
      var i :| 0 <= i < |writes| && writes[i] == c;
      assert writes[..n][i] == c && c.key != writes[n].key;
      WriteAllNewest(s, writes[..n], mode, c);
      WrittenElsewhere(WriteAll(s, writes[..n], mode), writes[n], mode, c);
    }
  }

  lemma {:induction false} WriteAllClaims(s: State, writes: seq<Copy>, mode: Mode, c: Copy)
    requires DistinctKeys(writes) && c in writes
    ensures c.key in WriteAll(s, writes, mode).cache.owner && WriteAll(s, writes, mode).cache.owner[c.key] == c.id
  {
    var n := |writes| - 1;
    if c != writes[n] {
      var i :| 0 <= i < |writes| && writes[i] == c;
      assert writes[..n][i] == c && c.key != writes[n].key;
      WriteAllClaims(s, writes[..n], mode, c);
    }
  }

  lemma {:induction false} WriteAllQuiet(s: State, writes: seq<Copy>, mode: Mode)
    requires mode == Now ==> Quiet(s)
    ensures mode == Now ==> Quiet(WriteAll(s, writes, mode))
  {
    if writes != [] {
      WriteAllQuiet(s, writes[..|writes| - 1], mode);
    }
  }

  /** What a pass gathers from all the buffers. */
  lemma PassDecided(s: State, buffers: seq<Buffer>, faults: Faults)
    requires DistinctIds(buffers)
    ensures var written, owner, present := s.cache.written, s.cache.owner, Present(s, faults.unreadable);
      && Decided(buffers, written, owner, present, |buffers|, Gathering(s, buffers, faults))
      && GatherOk(Gathering(s, buffers, faults), written, owner, present)
  {
    assert buffers[..|buffers|] == buffers;
    GatherExactly(buffers, s.cache.written, s.cache.owner, Present(s, faults.unreadable), |buffers|);
    GatherIsOk(buffers, s.cache.written, s.cache.owner, Present(s, faults.unreadable));
  }

  lemma FewerDistinct(writes: seq<Copy>, n: nat)
    requires DistinctKeys(writes) && OneEach(writes) && n <= |writes|
    ensures DistinctKeys(writes[..n]) && OneEach(writes[..n])
  {
  }

  lemma PassWritten(s: State, buffers: seq<Buffer>, mode: Mode, faults: Faults)
    requires DistinctIds(buffers)
    ensures var g := Gathering(s, buffers, faults);
      Pass(s, buffers, mode, faults).0.cache.written ==
        Recorded(Minus(s.cache.written, Dead(s.cache.written, IdsAmong(buffers))),
                 g.writes[..Writable(g.writes, faults.unwritable)])
  {
    var g := Gathering(s, buffers, faults);
    PassDecided(s, buffers, faults);
    assert buffers[..|buffers|] == buffers;
    WriteAllWritten(Cleared(s, g, faults.unremovable), g.writes[..Writable(g.writes, faults.unwritable)], mode);
  }

  /** A pass records for every buffer it writes the revision and the key, and nothing new
      for any other; and only live buffers are recorded. */
  lemma PassRecords(s: State, buffers: seq<Buffer>, mode: Mode, faults: Faults, i: nat)
    requires DistinctIds(buffers) && i < |buffers|
    ensures var w, id := Pass(s, buffers, mode, faults).0.cache.written, buffers[i].id;
      if Made(buffers, s.cache.written, s.cache.owner, Present(s, faults.unreadable), faults.unwritable, i)
      then id in w && w[id] == (buffers[i].key.value, buffers[i].revision)
      else if id in s.cache.written then id in w && w[id] == s.cache.written[id]
      else id !in w
  {
    var g := Gathering(s, buffers, faults);
    var done := g.writes[..Writable(g.writes, faults.unwritable)];
    var kept := Minus(s.cache.written, Dead(s.cache.written, IdsAmong(buffers)));
    PassDecided(s, buffers, faults);
    PassWritten(s, buffers, mode, faults);
    FewerDistinct(g.writes, Writable(g.writes, faults.unwritable));
    if Made(buffers, s.cache.written, s.cache.owner, Present(s, faults.unreadable), faults.unwritable, i) {
      MadeIsDone(buffers, s.cache.written, s.cache.owner, Present(s, faults.unreadable), faults.unwritable, g.writes,
                 i);
      RecordedAs(kept, done, CopyOf(buffers[i]));
    } else {
      forall c | c in done ensures c.id != buffers[i].id {
        UnmadeIsNot(buffers, s.cache.written, s.cache.owner, Present(s, faults.unreadable), faults.unwritable,
                    g.writes, i, c);
      }
      RecordedElse(kept, done, buffers[i].id);
      assert buffers[i].id in IdsAmong(buffers);
    }
  }

  lemma PassForgets(s: State, buffers: seq<Buffer>, mode: Mode, faults: Faults, id: Id)
    requires DistinctIds(buffers) && forall b :: b in buffers ==> b.id != id
    ensures id !in Pass(s, buffers, mode, faults).0.cache.written
  {
    var g := Gathering(s, buffers, faults);
    PassDecided(s, buffers, faults);
    PassWritten(s, buffers, mode, faults);
    forall c | c in g.writes[..Writable(g.writes, faults.unwritable)] ensures c.id != id {
      assert c in g.writes && c.id in g.live && buffers[..|buffers|] == buffers;
    }
    RecordedElse(Minus(s.cache.written, Dead(s.cache.written, IdsAmong(buffers))),
                 g.writes[..Writable(g.writes, faults.unwritable)], id);
  }

  /** A buffer a pass writes owns its key, and the newest copy there is the buffer's text. */
  lemma PassSaves(s: State, buffers: seq<Buffer>, mode: Mode, faults: Faults, i: nat)
    requires DistinctIds(buffers) && i < |buffers| && (mode == Now ==> Quiet(s))
    requires Made(buffers, s.cache.written, s.cache.owner, Present(s, faults.unreadable), faults.unwritable, i)
    ensures var s', c := Pass(s, buffers, mode, faults).0, CopyOf(buffers[i]);
      Newest(s', c) && c.key in s'.cache.owner && s'.cache.owner[c.key] == c.id
  {
    var g := Gathering(s, buffers, faults);
    PassDecided(s, buffers, faults);
    FewerDistinct(g.writes, Writable(g.writes, faults.unwritable));
    MadeIsDone(buffers, s.cache.written, s.cache.owner, Present(s, faults.unreadable), faults.unwritable, g.writes, i);
    ClearedOwner(s, g, faults.unremovable);
    WriteAllNewest(Cleared(s, g, faults.unremovable), g.writes[..Writable(g.writes, faults.unwritable)], mode,
                   CopyOf(buffers[i]));
    WriteAllClaims(Cleared(s, g, faults.unremovable), g.writes[..Writable(g.writes, faults.unwritable)], mode,
                   CopyOf(buffers[i]));
  }

  ghost function Written(buffers: seq<Buffer>, written: map<Id, (Key, nat)>, owner: map<Key, Id>,
                         present: set<Key>): set<nat>
  {
    set i: nat | i < |buffers| && Writes(buffers, written, owner, present, i)
  }

  /** The buffers whose copies cannot be written. */
  ghost function Failing(buffers: seq<Buffer>, written: map<Id, (Key, nat)>, owner: map<Key, Id>, present: set<Key>,
                         unwritable: set<Key>): set<nat>
  {
    set i: nat | i < |buffers| && Writes(buffers, written, owner, present, i) && buffers[i].key.value in unwritable
  }

  ghost predicate FirstOf(failing: set<nat>, i: nat) {
    i in failing && forall j :: j in failing ==> i <= j
  }

  lemma {:induction false} SizeOf(at: seq<nat>, all: set<nat>)
    requires (forall s, t :: 0 <= s < t < |at| ==> at[s] < at[t]) && forall i :: i in all <==> i in at
    ensures |all| == |at|
  {
    if at == [] {
      assert all == {};
    } else {
      var n := |at| - 1;
      assert at == at[..n] + [at[n]];
      SizeOf(at[..n], all - {at[n]});
    }
  }

  lemma WritableStops(writes: seq<Copy>, unwritable: set<Key>, t: nat)
    requires t < |writes| && writes[t].key in unwritable
    ensures Writable(writes, unwritable) <= t
  {
  }

  lemma FailsAt(buffers: seq<Buffer>, written: map<Id, (Key, nat)>, owner: map<Key, Id>, present: set<Key>,
                unwritable: set<Key>, at: seq<nat>, writes: seq<Copy>, i: nat)
    requires at == Writing(buffers, written, owner, present, |buffers|) && writes == Copies(buffers, at)
    requires i in Failing(buffers, written, owner, present, unwritable)
    ensures Writable(writes, unwritable) < |at| && at[Writable(writes, unwritable)] <= i
  {
    var t :| 0 <= t < |at| && at[t] == i;
    WritableStops(writes, unwritable, t);
  }

  /** Where writing the copies gathered stops. */
  lemma StopsAt(buffers: seq<Buffer>, written: map<Id, (Key, nat)>, owner: map<Key, Id>, present: set<Key>,
                unwritable: set<Key>, at: seq<nat>, writes: seq<Copy>)
    requires at == Writing(buffers, written, owner, present, |buffers|) && writes == Copies(buffers, at)
    ensures var n, failing := Writable(writes, unwritable), Failing(buffers, written, owner, present, unwritable);
      if n < |writes| then FirstOf(failing, at[n]) && buffers[at[n]].key == Some(writes[n].key)
      else failing == {} && n == |Written(buffers, written, owner, present)|
  {
    var n, failing := Writable(writes, unwritable), Failing(buffers, written, owner, present, unwritable);
    forall i | i in failing ensures n < |writes| && at[n] <= i {
      FailsAt(buffers, written, owner, present, unwritable, at, writes, i);
    }
    SizeOf(at, Written(buffers, written, owner, present));
  }

  /** A pass reports how many buffers it wrote, blocked and found in conflict, unless a
      copy cannot be written: then the key of the first that cannot. */
  lemma PassReports(s: State, buffers: seq<Buffer>, mode: Mode, faults: Faults)
    requires DistinctIds(buffers)
    ensures var written, owner, present := s.cache.written, s.cache.owner, Present(s, faults.unreadable);
      var failing := Failing(buffers, written, owner, present, faults.unwritable);
      match Pass(s, buffers, mode, faults).1
      case Passed(n, blocked, conflicted) =>
        && failing == {} && n == |Written(buffers, written, owner, present)|
        && blocked == |Blocked(buffers, written, owner, present, |buffers|)|
        && conflicted == |Conflicting(buffers, written, owner, present, |buffers|)|
      case WriteFailed(key) =>
        exists i: nat :: i < |buffers| && FirstOf(failing, i) && buffers[i].key == Some(key)
  {
    var written, owner, present := s.cache.written, s.cache.owner, Present(s, faults.unreadable);
    PassDecided(s, buffers, faults);
    StopsAt(buffers, written, owner, present, faults.unwritable, Writing(buffers, written, owner, present, |buffers|),
            Gathering(s, buffers, faults).writes);
  }

  /** After a pass none of whose writes failed, every unsaved buffer whose key is its to
      write is recorded at its key with the revision it has. */
  lemma PassKeepsUp(s: State, buffers: seq<Buffer>, mode: Mode, faults: Faults, i: nat)
    requires DistinctIds(buffers) && i < |buffers| && Unsaved(buffers[i])
    requires Pass(s, buffers, mode, faults).1.Passed?
    requires var present := Present(s, faults.unreadable);
      && !Blocks(buffers, s.cache.written, s.cache.owner, present, i)
      && !Conflicts(buffers, s.cache.written, s.cache.owner, present, i)
    ensures var w, id := Pass(s, buffers, mode, faults).0.cache.written, buffers[i].id;
      id in w && w[id] == (buffers[i].key.value, buffers[i].revision)
  {
    var written, owner, present := s.cache.written, s.cache.owner, Present(s, faults.unreadable);
    assert Failing(buffers, written, owner, present, faults.unwritable) == {} by {
      PassReports(s, buffers, mode, faults);
    }
    NoneFails(buffers, written, owner, present, faults.unwritable, i);
    PassRecords(s, buffers, mode, faults, i);
  }

  lemma NoneFails(buffers: seq<Buffer>, written: map<Id, (Key, nat)>, owner: map<Key, Id>, present: set<Key>,
                  unwritable: set<Key>, i: nat)
    requires i < |buffers| && Failing(buffers, written, owner, present, unwritable) == {}
    ensures Writes(buffers, written, owner, present, i) ==> Made(buffers, written, owner, present, unwritable, i)
  {
    forall j: nat | j < |buffers| && Writes(buffers, written, owner, present, j)
      ensures buffers[j].key.value !in unwritable
    {
      assert j !in Failing(buffers, written, owner, present, unwritable);
    }
  }

  // ----- what is on disk and owned, once everything pending is carried out -----

  /** The key is left behind by a moved buffer, or was a dead buffer's. */
  ghost predicate Released(y: Sync, buffers: seq<Buffer>, k: Key) {
    || k in LeftBehind(buffers, y.written, y.owner, y.disk.Keys, |buffers|)
    || (k in y.owner && y.owner[k] in y.written && y.owner[k] !in IdsAmong(buffers) && y.written[y.owner[k]].0 == k)
  }

  lemma {:induction false} SyncWritesAt(y: Sync, writes: seq<Copy>, c: Copy)
    requires DistinctKeys(writes) && c in writes
    ensures c.key in SyncWriteAll(y, writes).disk && SyncWriteAll(y, writes).disk[c.key] == c.text
    ensures c.key in SyncWriteAll(y, writes).owner && SyncWriteAll(y, writes).owner[c.key] == c.id
  {
    var n := |writes| - 1;
    if c != writes[n] {
      assert writes == writes[..n] + [writes[n]];
      var i :| 0 <= i < n && writes[i] == c;
      SyncWritesAt(y, writes[..n], c);
    }
  }

  lemma {:induction false} SyncWritesElse(y: Sync, writes: seq<Copy>, k: Key)
    requires k !in KeysOf(writes)
    ensures k in SyncWriteAll(y, writes).disk <==> k in y.disk
    ensures k in y.disk ==> SyncWriteAll(y, writes).disk[k] == y.disk[k]
    ensures k in SyncWriteAll(y, writes).owner <==> k in y.owner
    ensures k in y.owner ==> SyncWriteAll(y, writes).owner[k] == y.owner[k]
  {
    if writes != [] {
      assert writes == writes[..|writes| - 1] + [writes[|writes| - 1]];
      SyncWritesElse(y, writes[..|writes| - 1], k);
    }
  }

  lemma SyncDecided(y: Sync, buffers: seq<Buffer>)
    requires DistinctIds(buffers)
    ensures Decided(buffers, y.written, y.owner, y.disk.Keys, |buffers|, SyncGather(y, buffers, {}))
    ensures GatherOk(SyncGather(y, buffers, {}), y.written, y.owner, y.disk.Keys)
    ensures SyncGather(y, buffers, {}).live == IdsAmong(buffers)
  {
    assert buffers[..|buffers|] == buffers && y.disk.Keys - {} == y.disk.Keys;
    GatherExactly(buffers, y.written, y.owner, y.disk.Keys, |buffers|);
    GatherIsOk(buffers, y.written, y.owner, y.disk.Keys);
  }

  /** Before the writes, exactly the keys released are let go. */
  lemma SyncClearsReleased(y: Sync, buffers: seq<Buffer>, k: Key)
    requires DistinctIds(buffers)
    ensures var y' := SyncClear(y, SyncGather(y, buffers, {}));
      && (k in y'.disk <==> k in y.disk && !Released(y, buffers, k)) && (k in y'.disk ==> y'.disk[k] == y.disk[k])
      && (k in y'.owner <==> k in y.owner && !Released(y, buffers, k)) && (k in y'.owner ==> y'.owner[k] == y.owner[k])
  {
    var g := SyncGather(y, buffers, {});
    SyncDecided(y, buffers);
    var y1 := SyncRetire(y, g.orphans);
    var dead := Dead(y1.written, g.live);
    assert k in DeadKeys(y1.written, y1.owner, dead) ==> Released(y, buffers, k);
  }

  /** Once everything pending is carried out, the key a buffer is written at holds the
      buffer's text and is the buffer's. */
  lemma SyncPassWrites(y: Sync, buffers: seq<Buffer>, i: nat)
    requires DistinctIds(buffers) && i < |buffers| && Writes(buffers, y.written, y.owner, y.disk.Keys, i)
    ensures var y', k := SyncPass(y, buffers).0, buffers[i].key.value;
      k in y'.disk && y'.disk[k] == buffers[i].text && k in y'.owner && y'.owner[k] == buffers[i].id
  {
    var g, at := SyncGather(y, buffers, {}), Writing(buffers, y.written, y.owner, y.disk.Keys, |buffers|);
    SyncDecided(y, buffers);
    var t :| 0 <= t < |at| && at[t] == i;
    assert g.writes[t] == CopyOf(buffers[i]);
    SyncWritesAt(SyncClear(y, g), g.writes, CopyOf(buffers[i]));
  }

  lemma WritesElsewhere(buffers: seq<Buffer>, written: map<Id, (Key, nat)>, owner: map<Key, Id>, present: set<Key>,
                        k: Key)
    requires !QueuedBefore(buffers, written, owner, present, |buffers|, k)
    ensures k !in KeysOf(Copies(buffers, Writing(buffers, written, owner, present, |buffers|)))
  {
    var at := Writing(buffers, written, owner, present, |buffers|);
    forall c | c in Copies(buffers, at) ensures c.key != k {
      var t :| 0 <= t < |at| && Copies(buffers, at)[t] == c;
      assert buffers[at[t]].key == Some(c.key);
    }
  }

  /** A key no buffer is written at loses its file and its owner if it is released, and
      is as it was if it is not. */
  lemma SyncPassElse(y: Sync, buffers: seq<Buffer>, k: Key)
    requires DistinctIds(buffers) && !QueuedBefore(buffers, y.written, y.owner, y.disk.Keys, |buffers|, k)
    ensures var y' := SyncPass(y, buffers).0;
      && (k in y'.disk <==> k in y.disk && !Released(y, buffers, k)) && (k in y'.disk ==> y'.disk[k] == y.disk[k])
      && (k in y'.owner <==> k in y.owner && !Released(y, buffers, k)) && (k in y'.owner ==> y'.owner[k] == y.owner[k])
  {
    var g := SyncGather(y, buffers, {});
    SyncDecided(y, buffers);
    WritesElsewhere(buffers, y.written, y.owner, y.disk.Keys, k);
    SyncWritesElse(SyncClear(y, g), g.writes, k);
    SyncClearsReleased(y, buffers, k);
  }

  // ----- claims and discards -----

  /** What is at the key, who owns it and what is pending there are as they were. */
  ghost predicate SameAt(s: State, s': State, k: Key) {
    && (k in s'.disk <==> k in s.disk) && (k in s.disk ==> s'.disk[k] == s.disk[k])
    && (k in s'.cache.owner <==> k in s.cache.owner) && (k in s.cache.owner ==> s'.cache.owner[k] == s.cache.owner[k])
    && (forall c: Copy :: c.key == k ==> (c in s'.cache.staged <==> c in s.cache.staged))
    && (k in s'.cache.retiring <==> k in s.cache.retiring)
  }

  /** Nobody owns the key and nothing is staged for it; its file is gone, unless it
      cannot be removed or goes once the installer's batch is taken. */
  ghost predicate LetGo(s': State, k: Key, unremovable: set<Key>) {
    && k !in s'.cache.owner && k !in KeysOf(s'.cache.staged)
    && (k in KeysOf(Batch(s'.cache)) ==> k in s'.cache.retiring)
    && (k in s'.disk ==> k in s'.cache.retiring || k in unremovable)
  }

  lemma RetiredAt(s: State, keys: set<Key>, unremovable: set<Key>, k: Key, s': State)
    requires var r := Retire(s, keys, unremovable);
      s'.disk == r.disk && s'.cache == r.cache.(owner := Minus(s.cache.owner, keys), written := s'.cache.written)
    ensures s'.cache.installer == s.cache.installer
    ensures if k in keys then LetGo(s', k, unremovable) else SameAt(s, s', k)
  {
    GoodIs(s.cache.staged, keys);
  }

  /** Discarding a path's copy lets its key go, with every record of it, and touches
      nothing else. */
  lemma DiscardPathIs(s: State, key: Key, unremovable: set<Key>)
    ensures var s' := DiscardPath(s, key, unremovable);
      && LetGo(s', key, unremovable) && (forall k :: k != key ==> SameAt(s, s', k))
      && (forall id :: id in s'.cache.written <==> id in s.cache.written && s.cache.written[id].0 != key)
      && (forall id :: id in s'.cache.written ==> s'.cache.written[id] == s.cache.written[id])
  {
    var s' := DiscardPath(s, key, unremovable);
    forall k: Key ensures if k == key then LetGo(s', k, unremovable) else SameAt(s, s', k) {
      RetiredAt(s, {key}, unremovable, k, s');
    }
  }

  /** Discarding a buffer's copies lets go the keys it owns of those it was recorded at
      and is at now, with its record, and touches nothing else. */
  lemma DiscardBufferIs(s: State, id: Id, current: Option<Key>, unremovable: set<Key>)
    ensures var s' := DiscardBuffer(s, id, current, unremovable);
      && (forall k ::
            if k in s.cache.owner && s.cache.owner[k] == id
              && (current == Some(k) || (id in s.cache.written && s.cache.written[id].0 == k))
            then LetGo(s', k, unremovable) else SameAt(s, s', k))
      && (forall x :: x in s'.cache.written <==> x in s.cache.written && x != id)
      && (forall x :: x in s'.cache.written ==> s'.cache.written[x] == s.cache.written[x])
  {
    var s', keys := DiscardBuffer(s, id, current, unremovable), OwnedBy(s.cache.owner, BufferKeys(s, id, current), id);
    forall k: Key ensures if k in keys then LetGo(s', k, unremovable) else SameAt(s, s', k) {
      RetiredAt(s, keys, unremovable, k, s');
    }
  }

  /** Adopting settles, then makes the key and its record the buffer's, taking them
      from any other buffer; no file changes. */
  lemma AdoptIs(s: State, id: Id, key: Key, revision: nat, faults: Faults, panics: bool)
    ensures var s1, s' := SettleQuietly(s, faults, panics), Adopt(s, id, Some((key, revision)), faults, panics);
      && s'.disk == s1.disk && id in s'.cache.written && s'.cache.written[id] == (key, revision)
      && key in s'.cache.owner && s'.cache.owner[key] == id
      && (forall k :: k != key ==> SameAt(s1, s', k))
      && (forall x :: x in s'.cache.written && x != id <==>
            x in s1.cache.written && x != id && s1.cache.written[x].0 != key)
      && (forall x :: x in s'.cache.written && x != id ==> s'.cache.written[x] == s1.cache.written[x])
  {
  }

  // ----- what settling reports -----

  /** How many failures a report tells; one put back untold may sum up others. */
  ghost function Told(r: Report): nat {
    match r
    case Summed(first, more) => Told(first) + more
    case _ => 1
  }

  /** How many failures are still to tell: only the first report may sum up others. */
  ghost function Untold(unreported: seq<Report>): nat {
    if unreported == [] then 0 else Told(unreported[0]) + |unreported| - 1
  }

  ghost predicate SummedFirst(unreported: seq<Report>) {
    forall i :: 0 < i < |unreported| ==> !unreported[i].Summed?
  }

  /** How many of the batch's copies fail in the end; a panic tells one failure. */
  ghost function BatchFailures(s: State, faults: Faults, panics: bool): nat {
    match s.cache.installer
    case None => 0
    case Some(i) =>
      if i.panicked || (!i.Finished() && panics) then 1
      else |i.failed| + if i.Finished() then 0 else |Bad(i.copies[i.met..], faults.uninstallable)|
  }

  lemma {:induction false} GoodBadSize(copies: seq<Copy>, bad: set<Key>)
    ensures |Good(copies, bad)| + |Bad(copies, bad)| == |copies|
  {
    if copies != [] {
      GoodBadSize(copies[..|copies| - 1], bad);
    }
  }

  lemma {:induction false} ToldSome(r: Report)
    ensures Told(r) > 0
  {
    match r
    case Summed(first, _) => ToldSome(first);
    case _ =>
  }

  lemma UntoldMore(unreported: seq<Report>, more: seq<Report>)
    requires forall r :: r in more ==> !r.Summed?
    ensures Untold(unreported + more) == Untold(unreported) + |more|
    ensures SummedFirst(unreported) ==> SummedFirst(unreported + more)
  {
    if unreported != [] {
      assert (unreported + more)[0] == unreported[0];
    }
  }

  /** The report is the first of those still to tell, or sums up the others under it. */
  ghost predicate TellsFirst(r: Report, unreported: seq<Report>) {
    unreported != [] ==> r == unreported[0] || (r.Summed? && r.first == unreported[0])
  }

  lemma DrainedTells(cache: Cache)
    ensures var (cache', error) := Drained(cache);
      && cache'.unreported == [] && (error.None? <==> cache.unreported == [])
      && (error.Some? ==> TellsFirst(error.value, cache.unreported))
      && (error.Some? ==> Told(error.value) == Untold(cache.unreported) > 0)
  {
    if cache.unreported != [] {
      ToldSome(cache.unreported[0]);
    }
  }

  lemma TakenFinished(s: State, unremovable: set<Key>)
    requires s.cache.installer.Some? && s.cache.installer.value.Finished()
    ensures var (s1, n) := Taken(s, unremovable);
      var i := s.cache.installer.value;
      var failures := if i.panicked then 1 else |i.failed|;
      && s1.cache.installer.None? && s1.cache.staged == s.cache.staged && s1.cache.passFailed == s.cache.passFailed
      && Untold(s1.cache.unreported) == Untold(s.cache.unreported) + failures
      && s.cache.unreported <= s1.cache.unreported
      && (s1.cache.unreported == [] <==> s.cache.unreported == [] && failures == 0)
      && (failures == 0 ==> n == |i.copies|)
  {
    var i := s.cache.installer.value;
    UntoldMore(s.cache.unreported, if i.panicked then [InstallerPanicked] else Reports(i.failed));
  }

  lemma FinishFails(s: State, faults: Faults, panics: bool)
    requires s.cache.installer.Some?
    ensures var f := Finish(s, faults, panics);
      && f.cache == s.cache.(installer := f.cache.installer) && f.cache.installer.Some?
      && f.cache.installer.value.Finished() && f.cache.installer.value.copies == Batch(s.cache)
      && BatchFailures(s, faults, panics) ==
        if f.cache.installer.value.panicked then 1 else |f.cache.installer.value.failed|
  {
  }

  lemma TakenTells(s: State, wait: bool, faults: Faults, panics: bool)
    requires wait || (s.cache.installer.Some? && s.cache.installer.value.Finished())
    ensures var (s1, n) := TakeInstaller(s, wait, faults, panics);
      var failures := BatchFailures(s, faults, panics);
      && s1.cache.installer.None? && s1.cache.staged == s.cache.staged && s1.cache.passFailed == s.cache.passFailed
      && Untold(s1.cache.unreported) == Untold(s.cache.unreported) + failures
      && s.cache.unreported <= s1.cache.unreported
      && (s1.cache.unreported == [] <==> s.cache.unreported == [] && failures == 0)
      && (failures == 0 ==> Or(n, 0) == |Batch(s.cache)|)
  {
    if s.cache.installer.Some? {
      var f := Finish(s, faults, panics);
      FinishFails(s, faults, panics);
      TakenFinished(f, faults.unremovable);
      var (s1, n) := Taken(f, faults.unremovable);
      assert TakeInstaller(s, wait, faults, panics) == (s1, Some(n));
    }
  }

  /** Settling succeeds exactly when nothing has failed, and counts what it brought to
      its place; otherwise it tells every failure not told before. */
  lemma SettleTells(s: State, faults: Faults, panics: bool)
    ensures var (s', r) := Settle(s, faults, panics);
      var failures := Untold(s.cache.unreported) + BatchFailures(s, faults, panics) +
        |Bad(s.cache.staged, faults.uninstallable)|;
      && s'.cache.unreported == []
      && match r
         case Ok(n) => failures == 0 && n == |Batch(s.cache)| + |s.cache.staged|
         case Err(e) => failures > 0 && Told(e) == failures && TellsFirst(e, s.cache.unreported)
  {
    var s1, bad := TakeInstaller(s, true, faults, panics).0, Bad(s.cache.staged, faults.uninstallable);
    TakenTells(s, true, faults, panics);
    GoodBadSize(s.cache.staged, faults.uninstallable);
    UntoldMore(s1.cache.unreported, Reports(bad));
    DrainedTells(InstallStaged(s1, faults).cache);
  }

  /** Collecting tells the failures of an installer that has finished, or succeeds with
      how many copies it installed and whether the last pass wrote them all. */
  lemma CollectTells(s: State, faults: Faults)
    requires s.cache.installer.Some? && s.cache.installer.value.Finished()
    ensures var (s', r) := Collect(s, faults);
      var failures := Untold(s.cache.unreported) + BatchFailures(s, faults, false);
      && s'.cache.unreported == [] && s'.cache.installer.None?
      && match r
         case Ok((n, all)) => failures == 0 && n == |Batch(s.cache)| && (all <==> !s.cache.passFailed)
         case Err(e) => failures > 0 && Told(e) == failures && TellsFirst(e, s.cache.unreported)
  {
    TakenTells(s, false, faults, false);
    DrainedTells(TakeInstaller(s, false, faults, false).0.cache);
  }

  /** Collecting while the installer runs, or with none, waits for nothing and tells only
      what was left to tell. */
  lemma CollectNothing(s: State, faults: Faults)
    requires s.cache.installer.Some? ==> !s.cache.installer.value.Finished()
    ensures var (s', r) := Collect(s, faults);
      && s' == s.(cache := s.cache.(unreported := []))
      && match r
         case Ok(v) => s.cache.unreported == [] && v == (0, false)
         case Err(e) => Told(e) == Untold(s.cache.unreported) > 0 && TellsFirst(e, s.cache.unreported)
  {
    DrainedTells(s.cache);
  }

  /** Settling where nobody can be told does what settling does, and leaves every failure
      to be told. */
  lemma QuietTells(s: State, faults: Faults, panics: bool)
    ensures var s', told := SettleQuietly(s, faults, panics), Settle(s, faults, panics);
      && s' == told.0.(cache := told.0.cache.(unreported := s'.cache.unreported))
      && Untold(s'.cache.unreported) == Untold(s.cache.unreported) + BatchFailures(s, faults, panics) +
        |Bad(s.cache.staged, faults.uninstallable)|
  {
    SettleTells(s, faults, panics);
  }

  // ----- installing -----

  /** Installing here: each staged copy is at its key, or it failed and its buffer, if it is
      recorded there at that revision, is recorded no more; nothing else changes. */
  lemma InstallMakes(s: State, faults: Faults, c: Copy)
    requires DistinctKeys(s.cache.staged)
    ensures var s', bad := InstallStaged(s, faults), faults.uninstallable;
      && s'.cache.staged == [] && s'.cache.owner == s.cache.owner && s'.cache.installer == s.cache.installer
      && (c in s.cache.staged && c.key !in bad ==> c.key in s'.disk && s'.disk[c.key] == c.text)
      && (c in s.cache.staged && c.key in bad ==> CopyFailed(c.key) in s'.cache.unreported)
      && (c.key !in KeysOf(s.cache.staged) || c.key in bad ==>
            (c.key in s'.disk <==> c.key in s.disk) && (c.key in s.disk ==> s'.disk[c.key] == s.disk[c.key]))
  {
    var good, failed := Good(s.cache.staged, faults.uninstallable), Bad(s.cache.staged, faults.uninstallable);
    GoodIs(s.cache.staged, faults.uninstallable);
    GoodDistinct(s.cache.staged, faults.uninstallable);
    TextsKeys(good);
    if c in good {
      TextsAt(good, c);
    }
    if i :| 0 <= i < |failed| && failed[i] == c {
      assert Reports(failed)[i] == CopyFailed(c.key);
    }
  }

  ghost predicate FailedAt(copies: seq<Copy>, bad: set<Key>, id: Id, at: (Key, nat)) {
    exists c :: c in copies && c.key in bad && c.id == id && at == (c.key, c.revision)
  }

  /** The records that go are those of the copies that failed, at the revision that did. */
  lemma InstallForgets(s: State, faults: Faults, id: Id)
    ensures var w, w' := s.cache.written, InstallStaged(s, faults).cache.written;
      && (id in w' ==> id in w && w'[id] == w[id])
      && (id in w ==> (id !in w' <==> FailedAt(s.cache.staged, faults.uninstallable, id, w[id])))
  {
    GoodIs(s.cache.staged, faults.uninstallable);
  }

  /** With copies staged and no installer, one begins with those copies, none of them met,
      or they are installed here; with none staged, or an installer there, nothing happens. */
  lemma BeginMakes(s: State, spawned: bool, faults: Faults)
    ensures var s' := BeginInstall(s, spawned, faults);
      if s.cache.staged == [] || s.cache.installer.Some? then s' == s
      else if spawned then
        && s' == s.(cache := s.cache.(staged := [], installer := s'.cache.installer))
        && Batch(s'.cache) == s.cache.staged && s'.cache.installer.value == Installer(s.cache.staged, 0, [], false)
      else s' == InstallStaged(s, faults)
  {
  }

  lemma TakeSummed(s: State, wait: bool, faults: Faults, panics: bool)
    requires SummedFirst(s.cache.unreported)
    ensures SummedFirst(TakeInstaller(s, wait, faults, panics).0.cache.unreported)
  {
    if s.cache.installer.Some? {
      var i := Finish(s, faults, panics).cache.installer.value;
      UntoldMore(s.cache.unreported, if i.panicked then [InstallerPanicked] else Reports(i.failed));
    }
  }

  lemma InstallSummed(s: State, faults: Faults)
    requires SummedFirst(s.cache.unreported)
    ensures SummedFirst(InstallStaged(s, faults).cache.unreported)
  {
    UntoldMore(s.cache.unreported, Reports(Bad(s.cache.staged, faults.uninstallable)));
  }

  /** In every run only the first report still to tell sums up others. */
  lemma {:induction false} RunSummed(disk: map<Key, Text>, events: seq<Event>)
    ensures SummedFirst(Run(Begin(disk), events).cache.unreported)
  {
    if events != [] {
      var s, e := Run(Begin(disk), events[..|events| - 1]), events[|events| - 1];
      RunSummed(disk, events[..|events| - 1]);
      match e
      case Swept(buffers, faults, panics) =>
        PassReportless(Settle(s, faults, panics).0, buffers, Now, faults);
      case StagedPass(buffers, faults) => PassReportless(s, buffers, Staged, faults);
      case Began(spawned, faults) => InstallSummed(s, faults);
      case Collected(faults) => TakeSummed(s, false, faults, false);
      case _ =>
    }
  }

  lemma {:induction false} WriteReportless(s: State, writes: seq<Copy>, mode: Mode)
    ensures WriteAll(s, writes, mode).cache.unreported == s.cache.unreported
  {
    if writes != [] {
      WriteReportless(s, writes[..|writes| - 1], mode);
    }
  }

  /** A pass leaves the reports still to tell alone. */
  lemma PassReportless(s: State, buffers: seq<Buffer>, mode: Mode, faults: Faults)
    ensures Pass(s, buffers, mode, faults).0.cache.unreported == s.cache.unreported
  {
    var g := Gathering(s, buffers, faults);
    WriteReportless(Cleared(s, g, faults.unremovable), g.writes[..Writable(g.writes, faults.unwritable)], mode);
  }
}

/** The table of jobs in flight (src/async_runtime.rs): dispatches that supersede one
    another, replies drained in batches, streams coalesced, results taken once. */
module JobTable {
  import opened Options

  type Id = nat

  type Item = nat

  type Resource = nat

  datatype JobResult = Unit | Value(n: nat)

  datatype Outcome = Complete(result: JobResult) | Cancelled | Failed(message: string)

  datatype JobState = Running | Settled(outcome: Outcome)

  /** A job until its outcome is taken: its token, what superseding goes by, and for a
      stream the items not yet delivered. */
  datatype Job = Job(cancelRequested: bool, state: JobState, key: Option<string>, buffer: Option<seq<Item>>,
                     maxBatch: nat,
                     resource: Option<Resource>)

  datatype Slot = Slot(id: Id, key: Option<string>, outcome: Outcome)

  const RingCap: nat := 64

  datatype Table = Table(next: Id, pending: map<Id, Job>, supersede: map<string, Id>, completed: seq<Slot>)

  const NewTable := Table(0, map[], map[], [])

  datatype Spec = Spec(key: Option<string>, stream: Option<nat>, resource: Option<Resource>)

  datatype ReplyKind = StreamItem(item: Item) | StreamClosed | Finished(outcome: Outcome)

  datatype Reply = Reply(id: Id, kind: ReplyKind)

  datatype Batch = Batch(id: Id, items: seq<Item>, closed: bool, outcome: Option<Outcome>)

  // ----- dispatching -----

  function Flip(pending: map<Id, Job>, id: Id): map<Id, Job> {
    if id in pending then pending[id := pending[id].(cancelRequested := true)] else pending
  }

  function NewJob(spec: Spec): Job {
    Job(false, Running, spec.key, if spec.stream.Some? then Some([]) else None, Or(spec.stream, 0), spec.resource)
  }

  /** A new job; one in flight under its key is told to stop first. */
  function Allocate(t: Table, spec: Spec): Table {
    var flipped := if spec.key.Some? && spec.key.value in t.supersede then Flip(t.pending, t.supersede[spec.key.value])
      else t.pending;
    t.(next := t.next + 1, pending := flipped[t.next := NewJob(spec)],
       supersede := if spec.key.Some? then t.supersede[spec.key.value := t.next] else t.supersede)
  }

  function Cancel(t: Table, id: Id): Table {
    t.(pending := Flip(t.pending, id))
  }

  // ----- replies -----

  /** A job on a reply: a stream's item is kept, whatever its state; anything else
      settles a running job, and only that. */
  function Heard(job: Job, kind: ReplyKind): Job {
    match kind
    case StreamItem(v) => if job.buffer.Some? then job.(buffer := Some(job.buffer.value + [v])) else job
    case StreamClosed => if job.state.Running? then job.(state := Settled(Complete(Unit))) else job
    case Finished(outcome) => if job.state.Running? then job.(state := Settled(outcome)) else job
  }

  function Receive(pending: map<Id, Job>, r: Reply): map<Id, Job> {
    if r.id in pending then pending[r.id := Heard(pending[r.id], r.kind)] else pending
  }

  predicate Settles(pending: map<Id, Job>, r: Reply) {
    r.id in pending && pending[r.id].state.Running? && !r.kind.StreamItem?
  }

  /** All that has arrived, and the jobs it settles, in order. */
  function ReceiveAll(pending: map<Id, Job>, replies: seq<Reply>): (map<Id, Job>, seq<Id>) {
    if replies == [] then (pending, [])
    else
      var n := |replies| - 1;
      var (p, settled) := ReceiveAll(pending, replies[..n]);
      (Receive(p, replies[n]), settled + if Settles(p, replies[n]) then [replies[n].id] else [])
  }

  // ----- settling -----

  /** A settled job gives up its key if the key is still its own. */
  function Released(supersede: map<string, Id>, id: Id, key: Option<string>): map<string, Id> {
    if key.Some? && key.value in supersede && supersede[key.value] == id then supersede - {key.value} else supersede
  }

  function ReleasedAll(supersede: map<string, Id>, pending: map<Id, Job>, settled: seq<Id>): map<string, Id> {
    if settled == [] then supersede
    else
      var n := |settled| - 1;
      var sup := ReleasedAll(supersede, pending, settled[..n]);
      if settled[n] in pending then Released(sup, settled[n], pending[settled[n]].key) else sup
  }

  function Ring(completed: seq<Slot>, pending: map<Id, Job>, settled: seq<Id>): seq<Slot> {
    if settled == [] then completed
    else
      var n := |settled| - 1;
      var ring, id := Ring(completed, pending, settled[..n]), settled[n];
      if id in pending && pending[id].state.Settled? then [Slot(id, pending[id].key, pending[id].state.outcome)] + ring
        else ring
  }

  /** The files changed by jobs that completed, in the order their replies came. */
  function Harvest(pending: map<Id, Job>, settled: seq<Id>): seq<Resource> {
    if settled == [] then []
    else
      var n := |settled| - 1;
      var id := settled[n];
      Harvest(pending, settled[..n]) +
      if id in pending && pending[id].resource.Some? && pending[id].state.Settled?
        && pending[id].state.outcome.Complete?
      then [pending[id].resource.value] else []
  }

  function Trimmed(ring: seq<Slot>): seq<Slot> {
    if |ring| > RingCap then ring[..RingCap] else ring
  }

  function Tick(t: Table, replies: seq<Reply>): (Table, seq<Id>, seq<Resource>) {
    var (p, settled) := ReceiveAll(t.pending, replies);
    (t.(pending := p, supersede := ReleasedAll(t.supersede, p, settled),
        completed := Trimmed(Ring(t.completed, p, settled))),
     settled, Harvest(p, settled))
  }

  // ----- taking -----

  /** How many items a stream's next batch takes. */
  function TakeCount(job: Job): (n: nat)
    requires job.buffer.Some?
    ensures n <= |job.buffer.value|
  {
    var cap := if job.maxBatch < 1 then 1 else job.maxBatch;
    if |job.buffer.value| < cap then |job.buffer.value| else cap
  }

  predicate Closes(job: Job) {
    job.buffer.Some? && job.state.Settled? && TakeCount(job) == |job.buffer.value|
  }

  function Drained(job: Job): Job {
    if job.buffer.Some? then job.(buffer := Some(job.buffer.value[TakeCount(job)..])) else job
  }

  /** A stream's batch, if it has one now: some items, or its end. */
  function BatchOf(id: Id, job: Job): seq<Batch> {
    if job.buffer.None? || (TakeCount(job) == 0 && job.state.Running?) then []
    else [Batch(id, job.buffer.value[..TakeCount(job)], Closes(job),
                if Closes(job) then Some(job.state.outcome) else None)]
  }

  function BatchFor(pending: map<Id, Job>, id: Id): seq<Batch> {
    if id in pending then BatchOf(id, pending[id]) else []
  }

  function BatchesOf(pending: map<Id, Job>, order: seq<Id>): seq<Batch> {
    if order == [] then []
    else
      var n := |order| - 1;
      BatchesOf(pending, order[..n]) + BatchFor(pending, order[n])
  }

  /** The jobs once the streams met so far have given up their batches. */
  function Half(pending: map<Id, Job>, met: seq<Id>): map<Id, Job> {
    map id | id in pending :: if id in met then Drained(pending[id]) else pending[id]
  }

  lemma HalfMore(pending: map<Id, Job>, met: seq<Id>, id: Id)
    requires id !in met
    ensures Half(pending, met + [id]) == if id in pending then Half(pending, met)[id := Drained(pending[id])]
      else Half(pending, met)
    ensures id in pending ==> Half(pending, met)[id] == pending[id]
    ensures id in pending && (pending[id].buffer.None? || TakeCount(pending[id]) == 0) ==>
      Drained(pending[id]) == pending[id]
  {
  }

  function Evicted(pending: map<Id, Job>, evict: seq<Id>): map<Id, Job> {
    map id | id in pending && id !in evict :: pending[id]
  }

  lemma EvictedIs(t: Table, order: seq<Id>, evict: seq<Id>)
    requires forall id :: id in evict <==> id in order && id in t.pending && Closes(t.pending[id])
    ensures Evicted(Half(t.pending, order), evict) == TakeBatches(t, order).0.pending
  {
  }

  /** Each stream met gives up its batch, and is gone with its last. */
  function TakeBatches(t: Table, order: seq<Id>): (Table, seq<Batch>) {
    (t.(pending := map id | id in t.pending && !(id in order && Closes(t.pending[id])) ::
          if id in order then Drained(t.pending[id]) else t.pending[id]),
     BatchesOf(t.pending, order))
  }

  function TakeResult(t: Table, id: Id): (Table, Option<Outcome>) {
    if id !in t.pending || t.pending[id].state.Running? then (t, None)
    else (t.(pending := t.pending - {id}), Some(t.pending[id].state.outcome))
  }

  // ----- superseding -----

  /** A key's entry is a job in flight under it, and a job in flight under a key is its
      entry or has been told to stop. */
  ghost predicate Ok(t: Table) {
    && (forall id :: id in t.pending ==> id < t.next)
    && (forall k :: k in t.supersede ==>
          t.supersede[k] in t.pending && t.pending[t.supersede[k]].state.Running?
          && t.pending[t.supersede[k]].key == Some(k))
    && (forall id :: id in t.pending ==> Placed(t, id))
    && |t.completed| <= RingCap
  }

  ghost predicate Placed(t: Table, id: Id)
    requires id in t.pending
  {
    var job := t.pending[id];
    job.state.Running? && job.key.Some? && !job.cancelRequested ==>
      job.key.value in t.supersede && t.supersede[job.key.value] == id
  }

  /** So no two jobs under a key run that have not been told to stop. */
  lemma OneRunsPerKey(t: Table, i: Id, j: Id)
    requires Ok(t) && i in t.pending && j in t.pending
    requires var a, b := t.pending[i], t.pending[j];
      a.state.Running? && b.state.Running? && !a.cancelRequested && !b.cancelRequested && a.key.Some? && a.key == b.key
    ensures i == j
  {
    assert Placed(t, i) && Placed(t, j);
  }

  lemma AllocateOk(t: Table, spec: Spec)
    requires Ok(t)
    ensures Ok(Allocate(t, spec))
  {
    var t' := Allocate(t, spec);
    forall id | id in t'.pending ensures Placed(t', id) {
      if id != t.next {
        assert Placed(t, id);
      }
    }
  }

  lemma CancelOk(t: Table, id: Id)
    requires Ok(t)
    ensures Ok(Cancel(t, id))
  {
    var t' := Cancel(t, id);
    forall i | i in t'.pending ensures Placed(t', i) {
      assert Placed(t, i);
    }
  }

  /** Replies take no job away, give none another key or token, and start none again. */
  lemma {:induction false} ReceiveKeeps(pending: map<Id, Job>, replies: seq<Reply>, id: Id)
    ensures var (p, settled) := ReceiveAll(pending, replies);
      && p.Keys == pending.Keys
      && (id in pending ==>
            && p[id].key == pending[id].key && p[id].cancelRequested == pending[id].cancelRequested
            && p[id].maxBatch == pending[id].maxBatch && p[id].buffer.Some? == pending[id].buffer.Some?
            && (id in settled <==> pending[id].state.Running? && p[id].state.Settled?)
            && (pending[id].state.Settled? ==> p[id].state == pending[id].state))
      && (id !in pending ==> id !in settled)
  {
    if replies != [] {
      ReceiveKeeps(pending, replies[..|replies| - 1], id);
    }
  }

  /** A key is given up exactly if the job it stood for is among those settled. */
  lemma {:induction false} ReleasedIs(supersede: map<string, Id>, pending: map<Id, Job>, settled: seq<Id>, k: string)
    requires k in supersede ==> supersede[k] in pending && pending[supersede[k]].key == Some(k)
    ensures var sup := ReleasedAll(supersede, pending, settled);
      && (k in sup <==> k in supersede && supersede[k] !in settled) && (k in sup ==> sup[k] == supersede[k])
  {
    if settled != [] {
      var n := |settled| - 1;
      ReleasedIs(supersede, pending, settled[..n], k);
      assert settled == settled[..n] + [settled[n]];
    }
  }

  /** A job's settling frees its own key and no other: a successor keeps the key until it
      settles itself. */
  lemma TickKeepsSuccessors(t: Table, replies: seq<Reply>, k: string)
    requires Ok(t)
    ensures var t' := Tick(t, replies).0;
      && t'.pending.Keys == t.pending.Keys
      && (k in t'.supersede <==>
          k in t.supersede && t.supersede[k] in t'.pending && t'.pending[t.supersede[k]].state.Running?)
      && (k in t'.supersede ==> t'.supersede[k] == t.supersede[k])
  {
    var (p, settled) := ReceiveAll(t.pending, replies);
    ReceiveKeeps(t.pending, replies, if k in t.supersede then t.supersede[k] else 0);
    ReleasedIs(t.supersede, p, settled, k);
  }

  lemma TickOk(t: Table, replies: seq<Reply>)
    requires Ok(t)
    ensures Ok(Tick(t, replies).0)
  {
    var t' := Tick(t, replies).0;
    ReceiveKeeps(t.pending, replies, 0);
    forall k | k in t'.supersede
      ensures t'.supersede[k] in t'.pending && t'.pending[t'.supersede[k]].state.Running?
        && t'.pending[t'.supersede[k]].key == Some(k)
    {
      TickKeepsSuccessors(t, replies, k);
      ReceiveKeeps(t.pending, replies, t.supersede[k]);
    }
    forall id | id in t'.pending ensures Placed(t', id) {
      ReceiveKeeps(t.pending, replies, id);
      assert Placed(t, id);
      if t'.pending[id].key.Some? {
        TickKeepsSuccessors(t, replies, t'.pending[id].key.value);
      }
    }
  }

  lemma TakeBatchesOk(t: Table, order: seq<Id>)
    requires Ok(t)
    ensures Ok(TakeBatches(t, order).0)
  {
    var t' := TakeBatches(t, order).0;
    forall id | id in t'.pending ensures Placed(t', id) {
      assert Placed(t, id);
    }
  }

  lemma TakeResultOk(t: Table, id: Id)
    requires Ok(t)
    ensures Ok(TakeResult(t, id).0)
  {
    var t' := TakeResult(t, id).0;
    forall i | i in t'.pending ensures Placed(t', i) {
      assert Placed(t, i);
    }
  }

  // ----- runs -----

  datatype Event = Allocates(spec: Spec) | Cancels(id: Id) | Ticks(replies: seq<Reply>)
    | TakesBatches(order: seq<Id>) | TakesResult(id: Id)

  function Do(t: Table, e: Event): Table {
    match e
    case Allocates(spec) => Allocate(t, spec)
    case Cancels(id) => Cancel(t, id)
    case Ticks(replies) => Tick(t, replies).0
    case TakesBatches(order) => TakeBatches(t, order).0
    case TakesResult(id) => TakeResult(t, id).0
  }

  function Run(events: seq<Event>): Table {
    if events == [] then NewTable else Do(Run(events[..|events| - 1]), events[|events| - 1])
  }

  lemma DoOk(t: Table, e: Event)
    requires Ok(t)
    ensures Ok(Do(t, e)) && Do(t, e).next >= t.next
  {
    match e
    case Allocates(spec) => AllocateOk(t, spec);
    case Cancels(id) => CancelOk(t, id);
    case Ticks(replies) => TickOk(t, replies);
    case TakesBatches(order) => TakeBatchesOk(t, order);
    case TakesResult(id) => TakeResultOk(t, id);
  }

  /** In every run, between calls, the keys and the jobs in flight agree. */
  lemma {:induction false} RunOk(events: seq<Event>)
    ensures Ok(Run(events))
  {
    if events != [] {
      RunOk(events[..|events| - 1]);
      DoOk(Run(events[..|events| - 1]), events[|events| - 1]);
    }
  }

  /** What an event reports settled. */
  function Reported(t: Table, e: Event): seq<Id> {
    if e.Ticks? then Tick(t, e.replies).1 else []
  }

  function AllReported(events: seq<Event>): seq<Id> {
    if events == [] then []
    else
      var n := |events| - 1;
      AllReported(events[..n]) + Reported(Run(events[..n]), events[n])
  }

  ghost predicate Distinct(s: seq<Id>) {
    forall i, j :: 0 <= i < j < |s| ==> s[i] != s[j]
  }

  lemma {:induction false} ReceiveDistinct(pending: map<Id, Job>, replies: seq<Reply>)
    ensures Distinct(ReceiveAll(pending, replies).1)
  {
    if replies != [] {
      var n := |replies| - 1;
      ReceiveDistinct(pending, replies[..n]);
      ReceiveKeeps(pending, replies[..n], replies[n].id);
    }
  }

  lemma DoSettles(t: Table, e: Event, id: Id)
    requires Ok(t) && id < t.next
    ensures id in Do(t, e).pending && Do(t, e).pending[id].state.Running? ==>
      id in t.pending && t.pending[id].state.Running?
    ensures id in Reported(t, e) ==>
      && id in t.pending && t.pending[id].state.Running? && id in Do(t, e).pending
      && Do(t, e).pending[id].state.Settled?
  {
    if e.Ticks? {
      ReceiveKeeps(t.pending, e.replies, id);
    }
  }

  /** In every run a job is reported settled at most once, and never runs again. */
  lemma {:induction false} SettledOnce(events: seq<Event>, id: Id)
    ensures Distinct(AllReported(events))
    ensures id in AllReported(events) ==>
      var t := Run(events); id < t.next && !(id in t.pending && t.pending[id].state.Running?)
  {
    if events != [] {
      var n := |events| - 1;
      var t, e := Run(events[..n]), events[n];
      RunOk(events[..n]);
      DoOk(t, e);
      SettledOnce(events[..n], id);
      if e.Ticks? {
        ReceiveDistinct(t.pending, e.replies);
        ReceiveKeeps(t.pending, e.replies, id);
        assert id in Reported(t, e) ==> id < t.next;
      }
      if id < t.next {
        DoSettles(t, e, id);
      }
      var before, now := AllReported(events[..n]), Reported(t, e);
      forall i | 0 <= i < |before| ensures before[i] !in now {
        SettledOnce(events[..n], before[i]);
        DoSettles(t, e, before[i]);
        assert before[i] in before;
      }
    }
  }

  /** The outcome the first reply that ends a job brings. */
  function FirstEnd(replies: seq<Reply>, id: Id): Option<Outcome> {
    if replies == [] then None
    else
      var n := |replies| - 1;
      var first := FirstEnd(replies[..n], id);
      if first.Some? || replies[n].id != id then first
      else
        match replies[n].kind
        case StreamItem(_) => None
        case StreamClosed => Some(Complete(Unit))
        case Finished(outcome) => Some(outcome)
  }

  /** A running job settles with the first end that arrives; a settled one stays so. */
  lemma {:induction false} FirstEndWins(pending: map<Id, Job>, replies: seq<Reply>, id: Id)
    requires id in pending
    ensures var p, end := ReceiveAll(pending, replies).0, FirstEnd(replies, id);
      id in p && p[id].state == if pending[id].state.Running? && end.Some? then Settled(end.value)
        else pending[id].state
  {
    if replies != [] {
      FirstEndWins(pending, replies[..|replies| - 1], id);
    }
  }

  lemma {:induction false} RingIs(completed: seq<Slot>, pending: map<Id, Job>, settled: seq<Id>)
    requires forall i :: 0 <= i < |settled| ==> settled[i] in pending && pending[settled[i]].state.Settled?
    ensures var ring, n := Ring(completed, pending, settled), |settled|;
      && |ring| == n + |completed| && ring[n..] == completed
      && forall i :: 0 <= i < n ==> var id := settled[n - 1 - i];
           ring[i] == Slot(id, pending[id].key, pending[id].state.outcome)
  {
    if settled != [] {
      var n := |settled| - 1;
      RingIs(completed, pending, settled[..n]);
      var ring, rest := Ring(completed, pending, settled), Ring(completed, pending, settled[..n]);
      assert ring[n + 1..] == rest[n..];
      forall i | 0 <= i < n + 1 ensures var id := settled[n - i];
        ring[i] == Slot(id, pending[id].key, pending[id].state.outcome) {
        if i > 0 {
          assert ring[i] == rest[i - 1] && settled[..n][n - 1 - (i - 1)] == settled[n - i];
        }
      }
    }
  }

  /** The last of the ids, the newest first, up to the cap. */
  ghost predicate NewestOf(ring: seq<Slot>, all: seq<Id>) {
    && |ring| == (if |all| < RingCap then |all| else RingCap)
    && forall i :: 0 <= i < |ring| ==> ring[i].id == all[|all| - 1 - i]
  }

  /** In every run the ring holds the jobs last settled, the newest first, up to its cap. */
  lemma {:induction false} RingIsNewest(events: seq<Event>)
    ensures NewestOf(Run(events).completed, AllReported(events))
  {
    if events != [] {
      var n := |events| - 1;
      RingIsNewest(events[..n]);
      RingStep(Run(events[..n]), events[n], AllReported(events[..n]));
    }
  }

  lemma RingStep(t: Table, e: Event, before: seq<Id>)
    requires NewestOf(t.completed, before)
    ensures NewestOf(Do(t, e).completed, before + Reported(t, e))
  {
    if e.Ticks? {
      RingTicked(t, e.replies, before);
    } else {
      assert before + [] == before;
    }
  }

  lemma RingTicked(t: Table, replies: seq<Reply>, before: seq<Id>)
    requires NewestOf(t.completed, before)
    ensures NewestOf(Tick(t, replies).0.completed, before + Tick(t, replies).1)
  {
    var (p, settled) := ReceiveAll(t.pending, replies);
    forall i | 0 <= i < |settled| ensures settled[i] in p && p[settled[i]].state.Settled? {
      ReceiveKeeps(t.pending, replies, settled[i]);
      assert settled[i] in settled;
      SettledArePending(t.pending, replies, settled[i]);
    }
    RingIs(t.completed, p, settled);
    var full, all, n := Ring(t.completed, p, settled), before + settled, |settled|;
    forall i | 0 <= i < |full| && i < RingCap ensures full[i].id == all[|all| - 1 - i] {
      if i >= n {
        assert full[i] == full[n..][i - n];
      }
    }
  }

  lemma {:induction false} SettledArePending(pending: map<Id, Job>, replies: seq<Reply>, id: Id)
    requires id in ReceiveAll(pending, replies).1
    ensures id in pending
  {
    if replies != [] {
      var n := |replies| - 1;
      ReceiveKeeps(pending, replies[..n], id);
      if id in ReceiveAll(pending, replies[..n]).1 {
        SettledArePending(pending, replies[..n], id);
      }
    }
  }

  // ----- streams -----

  /** The items of a stream among replies. */
  function Items(replies: seq<Reply>, id: Id): seq<Item> {
    if replies == [] then []
    else
      var n := |replies| - 1;
      Items(replies[..n], id) + if replies[n].id == id && replies[n].kind.StreamItem? then [replies[n].kind.item]
        else []
  }

  predicate IsStream(t: Table, id: Id) {
    id in t.pending && t.pending[id].buffer.Some?
  }

  /** The items that reach a stream. */
  function Arrives(t: Table, e: Event, id: Id): seq<Item> {
    if e.Ticks? && IsStream(t, id) then Items(e.replies, id) else []
  }

  function Arrived(events: seq<Event>, id: Id): seq<Item> {
    if events == [] then []
    else
      var n := |events| - 1;
      Arrived(events[..n], id) + Arrives(Run(events[..n]), events[n], id)
  }

  /** The batches of a stream among those taken. */
  function Only(batches: seq<Batch>, id: Id): seq<Batch> {
    if batches == [] then []
    else
      var n := |batches| - 1;
      Only(batches[..n], id) + if batches[n].id == id then [batches[n]] else []
  }

  function Batches(events: seq<Event>, id: Id): seq<Batch> {
    if events == [] then []
    else
      var n := |events| - 1;
      Batches(events[..n], id) +
      if events[n].TakesBatches? then Only(TakeBatches(Run(events[..n]), events[n].order).1, id) else []
  }

  function Delivered(batches: seq<Batch>): seq<Item> {
    if batches == [] then [] else Delivered(batches[..|batches| - 1]) + batches[|batches| - 1].items
  }

  lemma {:induction false} ReceiveItems(pending: map<Id, Job>, replies: seq<Reply>, id: Id)
    requires id in pending && pending[id].buffer.Some?
    ensures var p := ReceiveAll(pending, replies).0;
      id in p && p[id].buffer == Some(pending[id].buffer.value + Items(replies, id))
  {
    if replies == [] {
      assert pending[id].buffer.value + [] == pending[id].buffer.value;
    } else {
      var n := |replies| - 1;
      ReceiveItems(pending, replies[..n], id);
      var more := if replies[n].id == id && replies[n].kind.StreamItem? then [replies[n].kind.item] else [];
      var held, before := pending[id].buffer.value, Items(replies[..n], id);
      assert (held + before) + more == held + (before + more);
      assert (held + before) + [] == held + before;
    }
  }

  lemma {:induction false} OnlyAppend(a: seq<Batch>, b: seq<Batch>, id: Id)
    ensures Only(a + b, id) == Only(a, id) + Only(b, id)
  {
    if b == [] {
      assert a + b == a;
    } else {
      var n := |b| - 1;
      assert (a + b)[..|a + b| - 1] == a + b[..n];
      OnlyAppend(a, b[..n], id);
    }
  }

  lemma OnlyOne(pending: map<Id, Job>, other: Id, id: Id)
    ensures Only(BatchFor(pending, other), id) == if other == id then BatchFor(pending, id) else []
  {
    if BatchFor(pending, other) != [] {
      assert BatchFor(pending, other)[..0] == [];
    }
  }

  lemma DistinctLast(order: seq<Id>)
    requires Distinct(order) && order != []
    ensures Distinct(order[..|order| - 1]) && order[|order| - 1] !in order[..|order| - 1]
    ensures forall id :: id in order <==> id in order[..|order| - 1] || id == order[|order| - 1]
  {
    assert order == order[..|order| - 1] + [order[|order| - 1]];
  }

  /** Every stream met once gives the batch it has. */
  lemma {:induction false} OnlyTaken(pending: map<Id, Job>, order: seq<Id>, id: Id)
    requires Distinct(order)
    ensures Only(BatchesOf(pending, order), id) == if id in order then BatchFor(pending, id) else []
  {
    if order != [] {
      var init, last := order[..|order| - 1], order[|order| - 1];
      DistinctLast(order);
      OnlyTaken(pending, init, id);
      OnlyAppend(BatchesOf(pending, init), BatchFor(pending, last), id);
      OnlyOne(pending, last, id);
    }
  }

  /** A run in which the streams are met once each call, and this one's outcome is taken
      with its batches only. */
  ghost predicate Coalesced(events: seq<Event>, id: Id) {
    forall i :: 0 <= i < |events| ==>
      (events[i].TakesBatches? ==> Distinct(events[i].order)) && !(events[i].TakesResult? && events[i].id == id)
  }

  function Buffer(t: Table, id: Id): seq<Item> {
    if IsStream(t, id) then t.pending[id].buffer.value else []
  }

  lemma DeliveredAppend(a: seq<Batch>, b: Batch)
    ensures Delivered(a + [b]) == Delivered(a) + b.items
  {
    assert (a + [b])[..|a|] == a;
  }

  /** What a batch holds, with what it leaves, is what there was. */
  lemma BatchSplits(id: Id, job: Job)
    requires job.buffer.Some?
    ensures var left := if Closes(job) then [] else Drained(job).buffer.value;
      if BatchOf(id, job) == [] then left == job.buffer.value else BatchOf(id, job)[0].items + left == job.buffer.value
  {
  }

  lemma BufferTicked(t: Table, replies: seq<Reply>, id: Id)
    ensures Buffer(Tick(t, replies).0, id) == Buffer(t, id) + Arrives(t, Ticks(replies), id)
  {
    ReceiveKeeps(t.pending, replies, id);
    if IsStream(t, id) {
      ReceiveItems(t.pending, replies, id);
    }
  }

  /** Nothing but a tick and a taking of batches touches a stream's buffer. */
  lemma BufferKept(t: Table, e: Event, id: Id)
    requires Ok(t) && !e.Ticks? && !e.TakesBatches? && !(e.TakesResult? && e.id == id)
    ensures Buffer(Do(t, e), id) == Buffer(t, id)
  {
  }

  lemma BufferPassed(t: Table, order: seq<Id>, id: Id)
    requires Distinct(order) && !(id in order && IsStream(t, id))
    ensures Buffer(TakeBatches(t, order).0, id) == Buffer(t, id) && Only(TakeBatches(t, order).1, id) == []
  {
    OnlyTaken(t.pending, order, id);
  }

  lemma StreamStep(t: Table, e: Event, id: Id, arrived: seq<Item>, batches: seq<Batch>)
    requires (e.TakesBatches? ==> Distinct(e.order)) && !(e.TakesResult? && e.id == id)
    requires Ok(t) && arrived == Delivered(batches) + Buffer(t, id)
    ensures var more := if e.TakesBatches? then Only(TakeBatches(t, e.order).1, id) else [];
      arrived + Arrives(t, e, id) == Delivered(batches + more) + Buffer(Do(t, e), id)
  {
    assert batches + [] == batches && arrived + [] == arrived;
    if e.Ticks? {
      assert Buffer(Do(t, e), id) == Buffer(t, id) + Arrives(t, e, id) by { BufferTicked(t, e.replies, id); }
      assert (Delivered(batches) + Buffer(t, id)) + Arrives(t, e,
                                                            id) == Delivered(batches) + (Buffer(t, id) + Arrives(t, e,
                                                                id));
    } else if e.TakesBatches? && id in e.order && IsStream(t, id) {
      assert Only(TakeBatches(t, e.order).1, id) == BatchOf(id, t.pending[id]) by { OnlyTaken(t.pending, e.order, id); }
      StreamTaken(t, e.order, id, batches);
    } else if e.TakesBatches? {
      BufferPassed(t, e.order, id);
    } else {
      BufferKept(t, e, id);
    }
  }

  lemma StreamTaken(t: Table, order: seq<Id>, id: Id, batches: seq<Batch>)
    requires id in order && IsStream(t, id)
    ensures Delivered(batches) + Buffer(t, id) ==
      Delivered(batches + BatchOf(id, t.pending[id])) + Buffer(TakeBatches(t, order).0, id)
  {
    var job := t.pending[id];
    BatchSplits(id, job);
    assert batches + [] == batches;
    if BatchOf(id, job) != [] {
      var b := BatchOf(id, job)[0];
      DeliveredAppend(batches, b);
      assert BatchOf(id, job) == [b];
      var left := if Closes(job) then [] else Drained(job).buffer.value;
      assert (Delivered(batches) + b.items) + left == Delivered(batches) + (b.items + left);
    }
  }

  /** In every run, the batches delivered and then what is held are the items that
      arrived, each once and in order. */
  lemma {:induction false} StreamConserved(events: seq<Event>, id: Id)
    requires Coalesced(events, id)
    ensures Arrived(events, id) == Delivered(Batches(events, id)) + Buffer(Run(events), id)
  {
    if events != [] {
      var n := |events| - 1;
      StreamConserved(events[..n], id);
      RunOk(events[..n]);
      StreamStep(Run(events[..n]), events[n], id, Arrived(events[..n], id), Batches(events[..n], id));
    }
  }

  /** Batches that bring items or the end; the end is the last, and has the outcome. */
  ghost predicate WellEnded(batches: seq<Batch>) {
    && (forall i :: 0 <= i < |batches| ==>
        (batches[i].items != [] || batches[i].closed) && (batches[i].closed <==> batches[i].outcome.Some?))
    && (forall i :: 0 <= i < |batches| - 1 ==> !batches[i].closed)
  }

  ghost predicate Ended(batches: seq<Batch>) {
    batches != [] && batches[|batches| - 1].closed
  }

  lemma BatchEnds(id: Id, job: Job)
    ensures |BatchOf(id, job)| <= 1 && WellEnded(BatchOf(id, job))
    ensures BatchOf(id, job) != [] ==> var b := BatchOf(id, job)[0];
      && (b.closed <==> Closes(job)) && (b.closed ==> b.outcome == Some(job.state.outcome))
      && |b.items| <= (if job.maxBatch < 1 then 1 else job.maxBatch)
  {
  }

  /** Gone, and never to come back. */
  ghost predicate Gone(t: Table, id: Id) {
    id < t.next && id !in t.pending
  }

  lemma GoneStays(t: Table, e: Event, id: Id)
    requires Ok(t) && Gone(t, id)
    ensures Gone(Do(t, e), id)
  {
    if e.Ticks? { ReceiveKeeps(t.pending, e.replies, id); }
  }

  lemma WellEndedMore(batches: seq<Batch>, b: Batch)
    requires WellEnded(batches) && !Ended(batches) && WellEnded([b])
    ensures WellEnded(batches + [b])
  {
    var all := batches + [b];
    assert [b][0] == b;
    forall i | 0 <= i < |all| - 1 ensures !all[i].closed {
      assert all[i] == batches[i];
    }
  }

  lemma EndStep(t: Table, e: Event, id: Id, before: seq<Batch>)
    requires Ok(t) && (e.TakesBatches? ==> Distinct(e.order))
    requires WellEnded(before) && (Ended(before) ==> Gone(t, id)) && (before != [] ==> id < t.next)
    ensures var more := if e.TakesBatches? then Only(TakeBatches(t, e.order).1, id) else [];
      && WellEnded(before + more) && (Ended(before + more) ==> Gone(Do(t, e), id))
      && (before + more != [] ==> id < t.next)
  {
    assert before + [] == before;
    if Gone(t, id) {
      GoneStays(t, e, id);
    }
    if e.TakesBatches? {
      OnlyTaken(t.pending, e.order, id);
      if id in e.order && id in t.pending && BatchOf(id, t.pending[id]) != [] {
        BatchEnds(id, t.pending[id]);
        var b := BatchOf(id, t.pending[id])[0];
        assert BatchOf(id, t.pending[id]) == [b];
        WellEndedMore(before, b);
      }
    }
  }

  /** In every run, each batch of a stream is something, and at most one ends it: the
      last, after which it is gone for good. */
  lemma {:induction false} StreamEndsOnce(events: seq<Event>, id: Id)
    requires Coalesced(events, id)
    ensures WellEnded(Batches(events, id))
    ensures Ended(Batches(events, id)) ==> Gone(Run(events), id)
    ensures Batches(events, id) != [] ==> id < Run(events).next
  {
    if events != [] {
      var n := |events| - 1;
      StreamEndsOnce(events[..n], id);
      RunOk(events[..n]);
      DoOk(Run(events[..n]), events[n]);
      EndStep(Run(events[..n]), events[n], id, Batches(events[..n], id));
    }
  }

  /** What a call delivers of a stream: a batch within its cap, which is the end exactly
      if the job has settled and nothing is left, and then with its outcome. */
  lemma TakenBatch(t: Table, order: seq<Id>, id: Id)
    requires Distinct(order) && id in order && IsStream(t, id)
    ensures var job, taken := t.pending[id], Only(TakeBatches(t, order).1, id);
      && |taken| <= 1 && (taken == [] <==> job.buffer.value == [] && job.state.Running?)
      && (taken != [] ==>
          |taken[0].items| <= (if job.maxBatch < 1 then 1 else job.maxBatch) && taken[0].items <= job.buffer.value)
      && (id !in TakeBatches(t, order).0.pending <==> taken != [] && taken[0].closed)
      && (taken != [] && taken[0].closed ==>
          taken[0].outcome.Some? && job.state == Settled(taken[0].outcome.value) && taken[0].items == job.buffer.value)
  {
    OnlyTaken(t.pending, order, id);
    BatchEnds(id, t.pending[id]);
  }
}

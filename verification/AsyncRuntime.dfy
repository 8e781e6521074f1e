/** The job runtime as it runs on the main thread (src/async_runtime.rs): its tables
    changed in place, refining the job table's functions. What the bus has queued, and
    the order in which a hash map's streams are met, are given to the methods. */
module AsyncRuntime {
  import opened Options
  import opened JobTable

  class Runtime {
    var nextJobId: Id
    var pending: map<Id, Job>
    var supersede: map<string, Id>
    var completed: seq<Slot>

    function View(): Table
      reads this
    {
      Table(nextJobId, pending, supersede, completed)
    }

    ghost predicate Valid()
      reads this
    {
      Ok(View())
    }

    constructor ()
      ensures Valid() && View() == NewTable
    {
      nextJobId, pending, supersede, completed := 0, map[], map[], [];
    }

    method Allocate(spec: Spec) returns (id: Id)
      requires Valid()
      modifies this
      ensures Valid() && View() == JobTable.Allocate(old(View()), spec)
      ensures id !in old(pending) && id in pending && pending[id] == NewJob(spec)
    {
      AllocateOk(View(), spec);
      id := nextJobId;
      nextJobId := nextJobId + 1;
      if spec.key.Some? {
        var key := spec.key.value;
        if key in supersede {
          FlipToken(supersede[key]);
        }
        supersede := supersede[key := id];
      }
      pending := pending[id := NewJob(spec)];
    }

    /** Flip a job's token, if it is in flight. */
    method FlipToken(id: Id)
      modifies this`pending
      ensures pending == Flip(old(pending), id)
    {
      if id in pending {
        pending := pending[id := pending[id].(cancelRequested := true)];
      }
    }

    method Cancel(id: Id)
      requires Valid()
      modifies this`pending
      ensures Valid() && View() == JobTable.Cancel(old(View()), id)
    {
      CancelOk(View(), id);
      FlipToken(id);
    }

    /** Drain the bus: every reply, then what settled. */
    method Tick(queue: seq<Reply>) returns (settled: seq<Id>, resources: seq<Resource>)
      requires Valid()
      modifies this
      ensures Valid() && (View(), settled, resources) == JobTable.Tick(old(View()), queue)
    {
      TickOk(View(), queue);
      settled := Drain(queue);
      resources := Settle(settled);
      Trim();
    }

    /** Free the keys of settled jobs that are still theirs, and note how they ended. */
    method Settle(settled: seq<Id>) returns (resources: seq<Resource>)
      modifies this`supersede, this`completed
      ensures supersede == ReleasedAll(old(supersede), pending, settled)
        && completed == Ring(old(completed), pending, settled)
      ensures resources == Harvest(pending, settled)
    {
      resources := [];
      for i := 0 to |settled|
        invariant supersede == ReleasedAll(old(supersede), pending, settled[..i])
        invariant completed == Ring(old(completed), pending, settled[..i])
          && resources == Harvest(pending, settled[..i])
      {
        assert settled[..i + 1][..i] == settled[..i];
        assert resources + [] == resources;
        var id := settled[i];
        if id in pending {
          var job := pending[id];
          if job.resource.Some? && job.state.Settled? && job.state.outcome.Complete? {
            resources := resources + [job.resource.value];
          }
          if job.key.Some? && job.key.value in supersede && supersede[job.key.value] == id {
            supersede := supersede - {job.key.value};
          }
          if job.state.Settled? {
            completed := [Slot(id, job.key, job.state.outcome)] + completed;
          }
        }
      }
      assert settled[..|settled|] == settled;
    }

    /** Drop the oldest of the ring while it is over its cap. */
    method Trim()
      modifies this`completed
      ensures completed == Trimmed(old(completed))
    {
      while |completed| > RingCap
        invariant |completed| <= |old(completed)| && completed == old(completed)[..|completed|]
        invariant |completed| < |old(completed)| ==> |completed| >= RingCap
      {
        completed := completed[..|completed| - 1];
      }
    }

    method Drain(queue: seq<Reply>) returns (settled: seq<Id>)
      modifies this`pending
      ensures (pending, settled) == ReceiveAll(old(pending), queue)
    {
      settled := [];
      for i := 0 to |queue|
        invariant (pending, settled) == ReceiveAll(old(pending), queue[..i])
      {
        assert queue[..i + 1][..i] == queue[..i];
        var r := queue[i];
        assert settled + [] == settled;
        if r.id in pending {
          var job := pending[r.id];
          match r.kind {
            case StreamItem(v) =>
              if job.buffer.Some? {
                job := job.(buffer := Some(job.buffer.value + [v]));
              }
            case StreamClosed =>
              if job.state.Running? {
                job, settled := job.(state := Settled(Complete(Unit))), settled + [r.id];
              }
            case Finished(outcome) =>
              if job.state.Running? {
                job, settled := job.(state := Settled(outcome)), settled + [r.id];
              }
          }
          pending := pending[r.id := job];
        }
      }
      assert queue[..|queue|] == queue;
    }

    /** One stream's batch, if it has one now, and whether that ends it. */
    method TakeBatch(id: Id) returns (batch: seq<Batch>, closed: bool)
      modifies this`pending
      ensures batch == BatchFor(old(pending), id) && closed == (id in old(pending) && Closes(old(pending)[id]))
      ensures pending == if id in old(pending) then old(pending)[id := Drained(old(pending)[id])] else old(pending)
    {
      batch, closed := [], false;
      if id !in pending || pending[id].buffer.None? {
        return;
      }
      var job := pending[id];
      var take := TakeCount(job);
      if take == 0 && job.state.Running? {
        return;
      }
      closed := job.state.Settled? && take == |job.buffer.value|;
      batch := [Batch(id, job.buffer.value[..take], closed, if closed then Some(job.state.outcome) else None)];
      pending := pending[id := job.(buffer := Some(job.buffer.value[take..]))];
    }

    /** Each stream's accumulator into one batch; the streams that end are gone. */
    method TakeStreamBatches(order: seq<Id>) returns (out: seq<Batch>)
      requires Valid() && Distinct(order)
      modifies this`pending
      ensures Valid() && (View(), out) == TakeBatches(old(View()), order)
    {
      TakeBatchesOk(View(), order);
      ghost var was := pending;
      out := [];
      var evict: seq<Id> := [];
      for i := 0 to |order|
        invariant out == BatchesOf(was, order[..i])
        invariant pending == Half(was, order[..i])
        invariant forall id :: id in evict <==> id in order[..i] && id in was && Closes(was[id])
      {
        var id := order[i];
        assert id !in order[..i];
        assert order[..i + 1] == order[..i] + [id] && order[..i + 1][..i] == order[..i];
        HalfMore(was, order[..i], id);
        var batch, closed := TakeBatch(id);
        out := out + batch;
        if closed {
          evict := evict + [id];
        }
      }
      assert order[..|order|] == order;
      EvictedIs(old(View()), order, evict);
      pending := Evicted(pending, evict);
    }

    method TakeResult(id: Id) returns (outcome: Option<Outcome>)
      requires Valid()
      modifies this`pending
      ensures Valid() && (View(), outcome) == JobTable.TakeResult(old(View()), id)
    {
      TakeResultOk(View(), id);
      if id !in pending || pending[id].state.Running? {
        return None;
      }
      outcome := Some(pending[id].state.outcome);
      pending := pending - {id};
    }
  }
}

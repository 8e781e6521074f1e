/** What a tick settles and harvests, what a job's taken result is, and what a dispatch
    and a cancellation change (src/async_runtime.rs). */
module JobOutcomes {
  import opened Options
  import opened JobTable
  import opened StreamEnds

  // ----- the end of a job among the replies -----

  /** A reply that ends the job, whatever its state. */
  ghost predicate EndsJob(r: Reply, id: Id) {
    r.id == id && !r.kind.StreamItem?
  }

  /** The reply at a place is the first that ends the job. */
  ghost predicate FirstEndAt(replies: seq<Reply>, id: Id, i: nat) {
    i < |replies| && EndsJob(replies[i], id) && forall j :: 0 <= j < i ==> !EndsJob(replies[j], id)
  }

  /** What a reply that ends a job makes of it: a closed stream completes with nothing. */
  ghost function EndOf(kind: ReplyKind): Outcome
    requires !kind.StreamItem?
  {
    if kind.StreamClosed? then Complete(Unit) else kind.outcome
  }

  /** A job's first end is that of the first reply to end it, where there is one. */
  lemma {:induction false} FirstEndIs(replies: seq<Reply>, id: Id)
    ensures forall i: nat :: FirstEndAt(replies, id, i) ==> FirstEnd(replies, id) == Some(EndOf(replies[i].kind))
    ensures FirstEnd(replies, id).Some? ==> exists i: nat :: FirstEndAt(replies, id, i)
    ensures FirstEnd(replies, id).None? ==> forall i :: 0 <= i < |replies| ==> !EndsJob(replies[i], id)
  {
    if replies != [] {
      var n := |replies| - 1;
      FirstEndIs(replies[..n], id);
      assert forall i :: 0 <= i < n ==> replies[..n][i] == replies[i];
      if i: nat :| FirstEndAt(replies[..n], id, i) {
        assert FirstEndAt(replies, id, i);
      } else if EndsJob(replies[n], id) {
        assert FirstEndAt(replies, id, n);
      }
      forall i: nat | FirstEndAt(replies, id, i) ensures FirstEnd(replies, id) == Some(EndOf(replies[i].kind)) {
        assert i < n ==> FirstEndAt(replies[..n], id, i);
      }
    }
  }

  // ----- a tick -----

  /** Each job settled is at the place of the reply that settled it. */
  ghost predicate SettledAt(pending: map<Id, Job>, replies: seq<Reply>, settled: seq<Id>, at: seq<nat>) {
    && |at| == |settled|
    && (forall s, t :: 0 <= s < t < |at| ==> at[s] < at[t])
    && forall s :: 0 <= s < |at| ==>
         settled[s] in pending && pending[settled[s]].state.Running? && FirstEndAt(replies, settled[s], at[s])
  }

  lemma FirstEndLater(replies: seq<Reply>, more: seq<Reply>, id: Id, i: nat)
    requires FirstEndAt(replies, id, i)
    ensures FirstEndAt(replies + more, id, i)
  {
  }

  lemma {:induction false} SettledOrder(pending: map<Id, Job>, replies: seq<Reply>) returns (at: seq<nat>)
    ensures SettledAt(pending, replies, ReceiveAll(pending, replies).1, at)
  {
    if replies == [] {
      at := [];
    } else {
      var n := |replies| - 1;
      var (p, settled) := ReceiveAll(pending, replies[..n]);
      assert replies == replies[..n] + [replies[n]];
      at := SettledOrder(pending, replies[..n]);
      forall s | 0 <= s < |at| ensures FirstEndAt(replies, settled[s], at[s]) {
        FirstEndLater(replies[..n], [replies[n]], settled[s], at[s]);
      }
      if Settles(p, replies[n]) {
        ReceiveKeeps(pending, replies[..n], replies[n].id);
        FirstEndWins(pending, replies[..n], replies[n].id);
        FirstEndIs(replies[..n], replies[n].id);
        at := at + [n];
      }
    }
  }

  /** The jobs a tick settles are the running ones a reply ends, in the order in which
      the first of those came. */
  lemma TickSettles(t: Table, replies: seq<Reply>) returns (at: seq<nat>)
    ensures SettledAt(t.pending, replies, Tick(t, replies).1, at)
    ensures forall id ::
      id in Tick(t, replies).1 <==> id in t.pending && t.pending[id].state.Running? && FirstEnd(replies, id).Some?
  {
    at := SettledOrder(t.pending, replies);
    forall id ensures id in Tick(t, replies).1 <==>
      id in t.pending && t.pending[id].state.Running? && FirstEnd(replies, id).Some?
    {
      ReceiveKeeps(t.pending, replies, id);
      if id in t.pending {
        FirstEndWins(t.pending, replies, id);
      }
    }
  }

  /** Every job after a tick: as it was, but for the items it was sent and its end. */
  lemma TickedJob(t: Table, replies: seq<Reply>, id: Id)
    requires id in t.pending
    ensures var t', was := Tick(t, replies).0, t.pending[id];
      && id in t'.pending
      && t'.pending[id] == was.(
           state := if was.state.Running? && FirstEnd(replies, id).Some? then Settled(FirstEnd(replies, id).value)
                    else was.state,
           buffer := if was.buffer.Some? then Some(was.buffer.value + Items(replies, id)) else None)
      && t'.next == t.next
  {
    ReceiveKeeps(t.pending, replies, id);
    FirstEndWins(t.pending, replies, id);
    if t.pending[id].buffer.Some? {
      ReceiveItems(t.pending, replies, id);
    }
    ReceiveKeepsResource(t.pending, replies, id);
  }

  lemma {:induction false} ReceiveKeepsResource(pending: map<Id, Job>, replies: seq<Reply>, id: Id)
    requires id in pending
    ensures var p := ReceiveAll(pending, replies).0; id in p && p[id].resource == pending[id].resource
  {
    if replies != [] {
      ReceiveKeepsResource(pending, replies[..|replies| - 1], id);
    }
  }

  /** The job changed files, and completed. */
  ghost predicate Changed(pending: map<Id, Job>, id: Id) {
    id in pending && pending[id].resource.Some? && pending[id].state.Settled? && pending[id].state.outcome.Complete?
  }

  /** What is harvested is what each of the settled jobs at these places changed, and no
      job at another place changed anything. */
  ghost predicate HarvestAt(pending: map<Id, Job>, settled: seq<Id>, resources: seq<Resource>, at: seq<nat>) {
    && |at| == |resources|
    && (forall s, t :: 0 <= s < t < |at| ==> at[s] < at[t])
    && (forall s :: 0 <= s < |at| ==>
          at[s] < |settled| && Changed(pending, settled[at[s]])
          && pending[settled[at[s]]].resource == Some(resources[s]))
    && forall i: nat :: i < |settled| && Changed(pending, settled[i]) ==> i in at
  }

  lemma HarvestMore(pending: map<Id, Job>, settled: seq<Id>, resources: seq<Resource>, at: seq<nat>, id: Id)
    requires HarvestAt(pending, settled, resources, at)
    ensures Changed(pending, id) ==>
      HarvestAt(pending, settled + [id], resources + [pending[id].resource.value], at + [|settled|])
    ensures !Changed(pending, id) ==> HarvestAt(pending, settled + [id], resources, at)
  {
  }

  lemma {:induction false} HarvestIs(pending: map<Id, Job>, settled: seq<Id>) returns (at: seq<nat>)
    ensures HarvestAt(pending, settled, Harvest(pending, settled), at)
  {
    if settled == [] {
      at := [];
    } else {
      var before, id := settled[..|settled| - 1], settled[|settled| - 1];
      at := HarvestIs(pending, before);
      HarvestMore(pending, before, Harvest(pending, before), at, id);
      assert settled == before + [id] && Harvest(pending, before) + [] == Harvest(pending, before);
      if Changed(pending, id) {
        at := at + [|before|];
      }
    }
  }

  /** A tick hands over what the jobs it settled changed, of those that completed, in the
      order in which they settled. */
  lemma TickHarvests(t: Table, replies: seq<Reply>) returns (at: seq<nat>)
    ensures var (t', settled, resources) := Tick(t, replies); HarvestAt(t'.pending, settled, resources, at)
  {
    var (t', settled, resources) := Tick(t, replies);
    at := HarvestIs(t'.pending, settled);
  }

  // ----- taking a result -----

  /** In every run the result taken of a job is the first end that arrived for it; before
      that, and once it is gone, there is none. Taking it takes that job and nothing else. */
  lemma ResultIsFirstEnd(events: seq<Event>, id: Id)
    ensures var t := Run(events); var (t', outcome) := TakeResult(t, id);
      && outcome == (if id in t.pending then EndArrived(events, id) else None)
      && (outcome.None? ==> t' == t)
      && (outcome.Some? ==>
            && id !in t'.pending && t'.next == t.next && t'.supersede == t.supersede && t'.completed == t.completed
            && forall i :: i != id ==>
                 (i in t'.pending <==> i in t.pending) && (i in t.pending ==> t'.pending[i] == t.pending[i]))
  {
    EndDecides(events, id);
  }

  // ----- dispatching and cancelling -----

  /** The table but for the one job is as it was. */
  ghost predicate SameBut(t: Table, t': Table, id: Id) {
    forall i :: i != id ==> (i in t'.pending <==> i in t.pending) && (i in t.pending ==> t'.pending[i] == t.pending[i])
  }

  /** Cancelling a job sets its token, if it is held, and changes nothing else. */
  lemma CancelSets(t: Table, id: Id)
    ensures var t' := Cancel(t, id);
      && t'.next == t.next && t'.supersede == t.supersede && t'.completed == t.completed && SameBut(t, t', id)
      && (id in t'.pending <==> id in t.pending)
      && (id in t.pending ==> t'.pending[id] == t.pending[id].(cancelRequested := true))
  {
  }

  /** A dispatch adds a running job under a number never given, told nothing and sent
      nothing yet; under a key it is the key's job, the one that was is told to stop, and
      every other job is as it was. */
  lemma AllocateAdds(t: Table, spec: Spec, i: Id)
    requires Ok(t)
    ensures var t' := Allocate(t, spec);
      && t.next !in t.pending && t'.next == t.next + 1 && t'.completed == t.completed
      && t.next in t'.pending && t'.pending[t.next].state.Running? && !t'.pending[t.next].cancelRequested
      && t'.pending[t.next].key == spec.key && t'.pending[t.next].resource == spec.resource
      && t'.pending[t.next].buffer == (if spec.stream.None? then None else Some([]))
      && (spec.stream.Some? ==> t'.pending[t.next].maxBatch == spec.stream.value)
      && t'.supersede == (if spec.key.None? then t.supersede else t.supersede[spec.key.value := t.next])
      && (i != t.next ==> (i in t'.pending <==> i in t.pending))
      && (i in t.pending ==>
            var stops := spec.key.Some? && spec.key.value in t.supersede && t.supersede[spec.key.value] == i;
            t'.pending[i] == if stops then t.pending[i].(cancelRequested := true) else t.pending[i])
  {
  }
}

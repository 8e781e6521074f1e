/** How a stream ends: the one closed batch it is owed comes, after as many calls as its
    items need and no later, and brings the outcome its job settled with. */
module StreamEnds {
  import opened Options
  import opened JobTable

  // ----- the outcome -----

  /** The first end to arrive for a job while it is held. */
  function EndArrived(events: seq<Event>, id: Id): Option<Outcome> {
    if events == [] then None
    else
      var n := |events| - 1;
      var before := EndArrived(events[..n], id);
      if before.Some? || !events[n].Ticks? || id !in Run(events[..n]).pending then before
      else FirstEnd(events[n].replies, id)
  }

  lemma StateKept(t: Table, e: Event, id: Id)
    requires Ok(t) && !e.Ticks? && id in Do(t, e).pending
    ensures if id in t.pending then Do(t, e).pending[id].state == t.pending[id].state
      else id == t.next && Do(t, e).pending[id].state.Running?
  {
  }

  lemma TickedState(t: Table, replies: seq<Reply>, id: Id)
    requires id in Tick(t, replies).0.pending
    ensures id in t.pending
    ensures Tick(t, replies).0.pending[id].state ==
      if t.pending[id].state.Running? && FirstEnd(replies, id).Some? then Settled(FirstEnd(replies, id).value)
        else t.pending[id].state
  {
    ReceiveKeeps(t.pending, replies, id);
    FirstEndWins(t.pending, replies, id);
  }

  /** In every run a job that is held runs until an end has arrived for it, and then has
      settled with the first that did. */
  lemma {:induction false} EndDecides(events: seq<Event>, id: Id)
    ensures var t, end := Run(events), EndArrived(events, id);
      && (id in t.pending ==> t.pending[id].state == if end.Some? then Settled(end.value) else Running)
      && (id >= t.next ==> end.None?)
  {
    if events != [] {
      var n := |events| - 1;
      var t, e := Run(events[..n]), events[n];
      EndDecides(events[..n], id);
      RunOk(events[..n]);
      DoOk(t, e);
      if id in Do(t, e).pending {
        if e.Ticks? {
          TickedState(t, e.replies, id);
        } else {
          StateKept(t, e, id);
        }
      }
    }
  }

  lemma TakenNow(t: Table, e: Event, id: Id)
    requires e.TakesBatches? ==> Distinct(e.order)
    ensures var more := if e.TakesBatches? then Only(TakeBatches(t, e.order).1, id) else [];
      more == if e.TakesBatches? && id in e.order then BatchFor(t.pending, id) else []
  {
    if e.TakesBatches? {
      OnlyTaken(t.pending, e.order, id);
    }
  }

  /** The outcome a stream's batches end with. */
  ghost predicate EndsWith(batches: seq<Batch>, end: Option<Outcome>) {
    Ended(batches) ==> end.Some? && batches[|batches| - 1].outcome == end
  }

  lemma EndsNext(t: Table, e: Event, id: Id, batches: seq<Batch>, end: Option<Outcome>)
    requires id in t.pending ==> t.pending[id].state == if end.Some? then Settled(end.value) else Running
    requires EndsWith(batches, end) && (e.TakesBatches? ==> Distinct(e.order))
    ensures EndsWith(batches + if e.TakesBatches? then Only(TakeBatches(t, e.order).1, id) else [], end)
  {
    var more := if e.TakesBatches? then Only(TakeBatches(t, e.order).1, id) else [];
    TakenNow(t, e, id);
    if more == [] {
      assert batches + more == batches;
    } else {
      BatchEnds(id, t.pending[id]);
      assert (batches + more)[|batches + more| - 1] == more[|more| - 1];
    }
  }

  /** In every run each batch of a stream is something; at most one is closed, it is the
      last, it has the outcome of the first end to arrive, and the job is gone after it. */
  lemma {:induction false} ClosedOutcome(events: seq<Event>, id: Id)
    requires Coalesced(events, id)
    ensures var batches := Batches(events, id);
      && WellEnded(batches)
      && (Ended(batches) ==>
          Gone(Run(events), id) && EndArrived(events, id).Some?
          && batches[|batches| - 1].outcome == EndArrived(events, id))
  {
    StreamEndsOnce(events, id);
    OutcomeOf(events, id);
  }

  lemma {:induction false} OutcomeOf(events: seq<Event>, id: Id)
    requires Coalesced(events, id)
    ensures EndsWith(Batches(events, id), EndArrived(events, id))
  {
    if events != [] {
      var n := |events| - 1;
      CoalescedStart(events, id);
      OutcomeOf(events[..n], id);
      EndDecides(events[..n], id);
      EndsNext(Run(events[..n]), events[n], id, Batches(events[..n], id), EndArrived(events[..n], id));
      StreamEndsOnce(events[..n], id);
      assert Ended(Batches(events, id)) && events[n].Ticks? ==> Batches(events, id) == Batches(events[..n], id);
    }
  }

  // ----- the calls it takes -----

  /** The calls that drain so many items by at most `cap` a call, and close the stream. */
  function Calls(items: nat, cap: nat): (k: nat)
    requires cap >= 1
    ensures k >= 1
  {
    if items <= cap then 1 else 1 + Calls(items - cap, cap)
  }

  /** As many as full batches hold the items, and one for none. */
  lemma {:induction false} CallsAre(items: nat, cap: nat)
    requires cap >= 1
    ensures (Calls(items, cap) - 1) * cap < (if items == 0 then 1 else items) <= Calls(items, cap) * cap
  {
    if items > cap {
      CallsAre(items - cap, cap);
      var k := Calls(items - cap, cap);
      assert (k + 1) * cap == k * cap + cap && k * cap == (k - 1) * cap + cap;
    }
  }

  function CapOf(job: Job): (cap: nat)
    ensures cap >= 1
  {
    if job.maxBatch < 1 then 1 else job.maxBatch
  }

  function CallsLeft(job: Job): nat
    requires job.buffer.Some?
  {
    Calls(|job.buffer.value|, CapOf(job))
  }

  predicate Meets(e: Event, id: Id) {
    e.TakesBatches? && id in e.order
  }

  /** How many calls meet the stream. */
  function Met(events: seq<Event>, id: Id): nat {
    if events == [] then 0 else Met(events[..|events| - 1], id) + if Meets(events[|events| - 1], id) then 1 else 0
  }

  /** Nothing more arrives for the stream. */
  ghost predicate Silent(events: seq<Event>, id: Id) {
    forall i :: 0 <= i < |events| && events[i].Ticks? ==> Items(events[i].replies, id) == []
  }

  ghost predicate SettledStream(t: Table, id: Id) {
    IsStream(t, id) && t.pending[id].state.Settled?
  }

  /** A call that does not meet a settled stream, and a tick that brings it nothing, leave
      it as it was, but for a stop that comes too late. */
  lemma Passed(t: Table, e: Event, id: Id)
    requires Ok(t) && SettledStream(t, id) && !Meets(e, id) && !(e.TakesResult? && e.id == id)
    requires e.Ticks? ==> Items(e.replies, id) == []
    ensures SettledStream(Do(t, e), id) && CallsLeft(Do(t, e).pending[id]) == CallsLeft(t.pending[id])
  {
    if e.Ticks? {
      ReceiveKeeps(t.pending, e.replies, id);
      ReceiveItems(t.pending, e.replies, id);
      TickedState(t, e.replies, id);
      assert t.pending[id].buffer.value + [] == t.pending[id].buffer.value;
    }
  }

  /** A call that meets it takes a full batch, or closes it. */
  lemma MetOnce(t: Table, order: seq<Id>, id: Id)
    requires SettledStream(t, id) && id in order
    ensures var t', k := TakeBatches(t, order).0, CallsLeft(t.pending[id]);
      if k == 1 then id !in t'.pending && Closes(t.pending[id])
      else SettledStream(t', id) && CallsLeft(t'.pending[id]) == k - 1 && !Closes(t.pending[id])
  {
  }

  lemma EndedMore(batches: seq<Batch>, more: seq<Batch>)
    ensures Ended(batches + more) == if more == [] then Ended(batches) else Ended(more)
  {
    assert batches + [] == batches;
  }

  /** Where a settled stream stands, so many calls on. */
  ghost predicate Stands(t: Table, id: Id, batches: seq<Batch>, met: nat, calls: nat) {
    if met < calls then !Ended(batches) && SettledStream(t, id) && CallsLeft(t.pending[id]) == calls - met
    else Ended(batches) && Gone(t, id)
  }

  lemma StandsNext(t: Table, e: Event, id: Id, batches: seq<Batch>, met: nat, calls: nat)
    requires Ok(t) && Stands(t, id, batches, met, calls) && !(e.TakesResult? && e.id == id)
    requires (e.TakesBatches? ==> Distinct(e.order)) && (e.Ticks? ==> Items(e.replies, id) == [])
    ensures var more := if e.TakesBatches? then Only(TakeBatches(t, e.order).1, id) else [];
      Stands(Do(t, e), id, batches + more, met + (if Meets(e, id) then 1 else 0), calls)
  {
    var more := if e.TakesBatches? then Only(TakeBatches(t, e.order).1, id) else [];
    TakenNow(t, e, id);
    EndedMore(batches, more);
    if met >= calls {
      GoneStays(t, e, id);
    } else if Meets(e, id) {
      MetOnce(t, e.order, id);
      BatchEnds(id, t.pending[id]);
    } else {
      Passed(t, e, id);
    }
  }

  lemma CoalescedStart(all: seq<Event>, id: Id)
    requires all != [] && Coalesced(all, id)
    ensures Coalesced(all[..|all| - 1], id)
  {
  }

  lemma {:induction false} Drains(events: seq<Event>, more: seq<Event>, id: Id)
    requires Coalesced(events + more, id) && SettledStream(Run(events), id) && Silent(more, id)
    ensures Stands(Run(events + more), id, Batches(events + more, id), Met(more, id),
                   CallsLeft(Run(events).pending[id]))
  {
    if more == [] {
      assert events + more == events;
      StreamEndsOnce(events, id);
    } else {
      var n := |more| - 1;
      var all := events + more;
      assert all[..|all| - 1] == events + more[..n] && all[|all| - 1] == more[n];
      assert Coalesced(all[..|all| - 1], id) by { CoalescedStart(all, id); }
      Drains(events, more[..n], id);
      RunOk(events + more[..n]);
      StandsNext(Run(events + more[..n]), more[n], id, Batches(events + more[..n], id), Met(more[..n], id),
                 CallsLeft(Run(events).pending[id]));
    }
  }

  /** From a settled stream on, with nothing more arriving, the stream is closed if and
      only if as many calls have met it as its items need; then exactly one batch is
      closed, the last, with the outcome the job settled with, and every item that ever
      arrived has been delivered. */
  lemma StreamClosesOnce(events: seq<Event>, more: seq<Event>, id: Id)
    requires Coalesced(events + more, id) && SettledStream(Run(events), id) && Silent(more, id)
    ensures var job, batches := Run(events).pending[id], Batches(events + more, id);
      && (Ended(batches) <==> Met(more, id) >= Calls(|job.buffer.value|, CapOf(job)))
      && WellEnded(batches)
      && (Ended(batches) ==>
            && batches[|batches| - 1].outcome == Some(job.state.outcome)
            && Gone(Run(events + more), id) && Delivered(batches) == Arrived(events + more, id))
  {
    Drains(events, more, id);
    ClosedOutcome(events + more, id);
    EndDecides(events, id);
    EndStays(events, more, id);
    StreamConserved(events + more, id);
    assert Delivered(Batches(events + more, id)) + [] == Delivered(Batches(events + more, id));
  }

  lemma {:induction false} EndStays(events: seq<Event>, more: seq<Event>, id: Id)
    ensures EndArrived(events, id).Some? ==> EndArrived(events + more, id) == EndArrived(events, id)
  {
    if more == [] {
      assert events + more == events;
    } else {
      var n := |more| - 1;
      assert (events + more)[..|events| + n] == events + more[..n];
      EndStays(events, more[..n], id);
    }
  }
}

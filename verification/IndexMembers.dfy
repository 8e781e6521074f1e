/** The holders of each path, kept in the registry's order. */
module IndexMembers {
  import opened Options
  import opened NameText
  import opened BufferNames
  import opened NameIndex

  /** How many holders stand before `place`. */
  function PartitionPoint(h: seq<Holder>, place: nat): (at: nat)
    ensures at <= |h|
    ensures forall t :: 0 <= t < at ==> h[t].0 < place
    ensures at < |h| ==> h[at].0 >= place
  {
    if h == [] || h[0].0 >= place then 0
    else
      var at := PartitionPoint(h[1..], place);
      assert forall t :: 0 < t < at + 1 ==> h[t] == h[1..][t - 1];
      at + 1
  }

  function WithHolder(h: seq<Holder>, x: Holder): (r: seq<Holder>)
    ensures forall y :: y in r <==> y in h || y == x
  {
    var at := PartitionPoint(h, x.0);
    assert h == h[..at] + h[at..];
    h[..at] + [x] + h[at..]
  }

  lemma WithHolderSorted(h: seq<Holder>, x: Holder)
    requires Sorted(h) && forall t :: 0 <= t < |h| ==> h[t].0 != x.0
    ensures Sorted(WithHolder(h, x)) && WithHolder(h, x) != []
  {
    var at, r := PartitionPoint(h, x.0), WithHolder(h, x);
    assert at < |h| ==> h[at].0 > x.0;
    forall s, t | 0 <= s < t < |r| ensures r[s].0 < r[t].0 {
      var s' := if s <= at then s else s - 1;
      var t' := if t <= at then t else t - 1;
      if s < at && t == at {
        assert r[s] == h[s];
      } else if s == at {
        assert r[t] == h[t - 1];
      } else if t < at {
        assert r[s] == h[s] && r[t] == h[t];
      } else if s < at {
        assert r[s] == h[s] && r[t] == h[t - 1];
      } else {
        assert r[s] == h[s - 1] && r[t] == h[t - 1];
      }
    }
  }

  /** The holder at `place`, by its position: a search of a sorted sequence. */
  function FindPlace(h: seq<Holder>, place: nat): (r: Option<nat>)
    requires Sorted(h)
    ensures r.Some? ==> r.value < |h| && h[r.value].0 == place
    ensures r.None? ==> forall t :: 0 <= t < |h| ==> h[t].0 != place
  {
    var at := PartitionPoint(h, place);
    if at < |h| && h[at].0 == place then Some(at) else None
  }

  function WithoutAt(h: seq<Holder>, at: nat): seq<Holder>
    requires at < |h|
  {
    h[..at] + h[at + 1..]
  }

  lemma WithoutAtSorted(h: seq<Holder>, at: nat)
    requires Sorted(h) && at < |h|
    ensures Sorted(WithoutAt(h, at))
    ensures forall y :: y in WithoutAt(h, at) <==> y in h && y != h[at]
  {
    var r := WithoutAt(h, at);
    forall y | y in h && y != h[at] ensures y in r {
      var t :| 0 <= t < |h| && h[t] == y;
      assert if t < at then r[t] == y else r[t - 1] == y;
    }
    forall y | y in r ensures y in h && y != h[at] {
      var t :| 0 <= t < |r| && r[t] == y;
      assert y == if t < at then h[t] else h[t + 1];
    }
  }

  // ----- a buffer joins a path, or leaves it -----

  lemma JoinedHeld(member: map<Id, (string, string)>, place: map<Id, nat>, open: Open, w: string, id: Id)
    requires MembersOk(member, place, open) && w in open && id !in member && id in place
    ensures var h := WithHolder(open[w].holders, (place[id], id));
      MembersOk(member[id := (GroupAt(open, w), w)], place, open[w := open[w].(holders := h)])
  {
    var h, x := open[w].holders, (place[id], id);
    forall t | 0 <= t < |h| ensures h[t].0 != x.0 {
      assert h[t] in open[w].holders;
    }
    WithHolderSorted(h, x);
    var h' := WithHolder(h, x);
    SortedAt(open, w, h');
    HoldersMore(member, place, open, w, id, h');
    MembersHoldMore(member, place, open, w, id, h');
  }

  lemma SortedAt(open: Open, w: string, h: seq<Holder>)
    requires HoldersSorted(open) && w in open && Sorted(h) && h != []
    ensures HoldersSorted(open[w := open[w].(holders := h)])
  {
  }

  lemma HoldersMore(member: map<Id, (string, string)>, place: map<Id, nat>, open: Open, w: string, id: Id,
                    h: seq<Holder>)
    requires HoldersAre(member, place, open) && w in open && id !in member && id in place
    requires forall y :: y in h <==> y in open[w].holders || y == (place[id], id)
    ensures HoldersAre(member[id := (GroupAt(open, w), w)], place, open[w := open[w].(holders := h)])
  {
    var open', member' := open[w := open[w].(holders := h)], member[id := (GroupAt(open, w), w)];
    forall v, y | v in open' && y in open'[v].holders
      ensures y.1 in member' && member'[y.1] == (GroupAt(open', v), v) && y.1 in place && place[y.1] == y.0
    {
      if v != w || y != (place[id], id) {
        assert y in open[v].holders;
      }
    }
  }

  lemma MembersHoldMore(member: map<Id, (string, string)>, place: map<Id, nat>, open: Open, w: string, id: Id,
                        h: seq<Holder>)
    requires MembersHold(member, place, open) && w in open && id !in member && id in place
    requires forall y :: y in h <==> y in open[w].holders || y == (place[id], id)
    ensures MembersHold(member[id := (GroupAt(open, w), w)], place, open[w := open[w].(holders := h)])
  {
    var open', member' := open[w := open[w].(holders := h)], member[id := (GroupAt(open, w), w)];
    forall i | i in member'
      ensures i in place && member'[i].1 in open' && member'[i].0 == GroupAt(open', member'[i].1)
      ensures (place[i], i) in open'[member'[i].1].holders
    {
      if i != id {
        assert (place[i], i) in open[member[i].1].holders;
      }
    }
  }

  lemma HoldersFewer(member: map<Id, (string, string)>, place: map<Id, nat>, open: Open, id: Id, h: seq<Holder>)
    requires HoldersAre(member, place, open) && MembersHold(member, place, open) && id in member
    requires forall y :: y in h <==> y in open[member[id].1].holders && y != (place[id], id)
    ensures var w := member[id].1; HoldersAre(member - {id}, place, open[w := open[w].(holders := h)])
  {
    var w := member[id].1;
    var open', member' := open[w := open[w].(holders := h)], member - {id};
    forall v, y | v in open' && y in open'[v].holders
      ensures y.1 in member' && member'[y.1] == (GroupAt(open', v), v) && y.1 in place && place[y.1] == y.0
    {
      assert y in open[v].holders;
    }
  }

  lemma MembersHoldFewer(member: map<Id, (string, string)>, place: map<Id, nat>, open: Open, id: Id, h: seq<Holder>)
    requires MembersHold(member, place, open) && id in member
    requires forall y :: y in h <==> y in open[member[id].1].holders && y != (place[id], id)
    ensures var w := member[id].1; MembersHold(member - {id}, place, open[w := open[w].(holders := h)])
  {
    var w := member[id].1;
    var open', member' := open[w := open[w].(holders := h)], member - {id};
    forall i | i in member'
      ensures i in place && member'[i].1 in open' && member'[i].0 == GroupAt(open', member'[i].1)
      ensures (place[i], i) in open'[member'[i].1].holders
    {
      assert (place[i], i) in open[member[i].1].holders;
    }
  }

  lemma JoinedNew(member: map<Id, (string, string)>, place: map<Id, nat>, open: Open, w: string, id: Id, e: GroupPath)
    requires MembersOk(member, place, open) && w !in open && id !in member && id in place
    requires e.holders == [(place[id], id)]
    ensures MembersOk(member[id := (e.names[0], w)], place, open[w := e])
  {
    var member', open' := member[id := (e.names[0], w)], open[w := e];
    assert MembersHold(member', place, open') by { JoinedNewHold(member, place, open, w, id, e); }
    assert forall v, y ::
      v in open' && y in open'[v].holders ==> (v in open && y in open[v].holders) || (v == w && y == e.holders[0]);
  }

  lemma JoinedNewHold(member: map<Id, (string, string)>, place: map<Id, nat>, open: Open, w: string, id: Id,
                      e: GroupPath)
    requires MembersHold(member, place, open) && w !in open && id !in member && id in place
      && e.holders == [(place[id], id)]
    ensures MembersHold(member[id := (e.names[0], w)], place, open[w := e])
  {
    assert (place[id], id) in e.holders;
  }

  lemma LeftHeld(member: map<Id, (string, string)>, place: map<Id, nat>, open: Open, id: Id, at: nat)
    requires MembersOk(member, place, open) && id in member
    requires at < |open[member[id].1].holders| && open[member[id].1].holders[at].0 == place[id]
    requires |open[member[id].1].holders| > 1
    ensures var w := member[id].1;
      MembersOk(member - {id}, place, open[w := open[w].(holders := WithoutAt(open[w].holders, at))])
  {
    var w := member[id].1;
    var h := open[w].holders;
    assert h[at] in h;
    WithoutAtSorted(h, at);
    var h' := WithoutAt(h, at);
    SortedAt(open, w, h');
    HoldersFewer(member, place, open, id, h');
    MembersHoldFewer(member, place, open, id, h');
  }

  lemma MembersHoldWithout(member: map<Id, (string, string)>, place: map<Id, nat>, open: Open, id: Id)
    requires MembersHold(member, place, open) && id in member && open[member[id].1].holders == [(place[id], id)]
    ensures MembersHold(member - {id}, place, open - {member[id].1})
  {
    var open', member' := open - {member[id].1}, member - {id};
    forall i | i in member' ensures member'[i].1 in open' && (place[i], i) in open'[member'[i].1].holders {
      assert (place[i], i) in open[member[i].1].holders;
    }
  }

  lemma HoldersWithout(member: map<Id, (string, string)>, place: map<Id, nat>, open: Open, id: Id)
    requires MembersHold(member, place, open) && HoldersAre(member, place, open) && id in member
    ensures HoldersAre(member - {id}, place, open - {member[id].1})
  {
    var open', member' := open - {member[id].1}, member - {id};
    forall v, y | v in open' && y in open'[v].holders
      ensures y.1 in member' && member'[y.1] == (GroupAt(open', v), v) && y.1 in place && place[y.1] == y.0
    {
      assert y in open[v].holders;
    }
  }

  lemma LeftLast(member: map<Id, (string, string)>, place: map<Id, nat>, open: Open, id: Id)
    requires MembersOk(member, place, open) && id in member
    requires |open[member[id].1].holders| == 1
    ensures MembersOk(member - {id}, place, open - {member[id].1})
  {
    assert (place[id], id) in open[member[id].1].holders;
    assert MembersHold(member - {id}, place, open - {member[id].1}) by { MembersHoldWithout(member, place, open, id); }
    assert HoldersAre(member - {id}, place, open - {member[id].1}) by { HoldersWithout(member, place, open, id); }
  }

  /** The buffer `id` stands among the holders of its path at its place. */
  lemma HolderAt(member: map<Id, (string, string)>, place: map<Id, nat>, open: Open, id: Id, at: Option<nat>)
    requires MembersOk(member, place, open) && id in member
    requires at == FindPlace(open[member[id].1].holders, place[id])
    ensures at.Some? && open[member[id].1].holders[at.value] == (place[id], id)
  {
    var h := open[member[id].1].holders;
    var t :| 0 <= t < |h| && h[t] == (place[id], id);
    assert at.Some? ==> h[at.value] in h;
  }
}

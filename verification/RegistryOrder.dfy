/** The registry's order and its buffers' places, as buffers come and go. */
module RegistryOrder {
  import opened NameText
  import opened BufferNames
  import opened NameIndex
  import opened IndexMarks
  import opened IndexFiling
  import opened IndexCounts
  import opened RegistrySteps
  import opened SessionAgreement
  import opened EventFiling
  import opened RegistryEvents

  /** The order without `id`. */
  function Without(order: seq<Id>, id: Id): (r: seq<Id>)
    ensures forall x :: x in r <==> x in order && x != id
  {
    if order == [] then []
    else
      var n := |order| - 1;
      assert order == order[..n] + [order[n]];
      Without(order[..n], id) + if order[n] == id then [] else [order[n]]
  }

  lemma {:induction false} WithoutInOrder(order: seq<Id>, place: map<Id, nat>, id: Id)
    requires InOrder(order, place)
    ensures InOrder(Without(order, id), place)
  {
    if order != [] {
      var n := |order| - 1;
      WithoutInOrder(order[..n], place, id);
      var rest, r := Without(order[..n], id), Without(order, id);
      forall i, j | 0 <= i < j < |r| ensures place[r[i]] < place[r[j]] {
        if j == |rest| {
          assert rest[i] in order[..n];
        }
      }
    }
  }

  lemma {:induction false} WithoutAbsent(order: seq<Id>, id: Id)
    requires id !in order
    ensures Without(order, id) == order
  {
    if order != [] {
      var n := |order| - 1;
      WithoutAbsent(order[..n], id);
      assert order == order[..n] + [order[n]];
    }
  }

  lemma InOrderElsewhere(order: seq<Id>, place: map<Id, nat>, place': map<Id, nat>)
    requires InOrder(order, place) && forall x :: x in order ==> x in place' && (x in place ==> place'[x] == place[x])
    ensures InOrder(order, place')
  {
  }

  lemma OrderInserted(order: seq<Id>, buffers: map<Id, Buffer>, place: map<Id, nat>, nextPlace: nat, id: Id,
                      buf: Buffer)
    requires OrderOk(order, buffers, place, nextPlace)
    ensures OrderOk(Without(order, id) + [id], buffers[id := buf], place[id := nextPlace], nextPlace + 1)
  {
    var rest, place' := Without(order, id), place[id := nextPlace];
    WithoutInOrder(order, place, id);
    InOrderElsewhere(rest, place, place');
    var after := rest + [id];
    forall i, j | 0 <= i < j < |after| ensures place'[after[i]] < place'[after[j]] {
      assert rest[i] in rest;
    }
  }

  lemma OrderRemoved(order: seq<Id>, buffers: map<Id, Buffer>, place: map<Id, nat>, nextPlace: nat, id: Id)
    requires OrderOk(order, buffers, place, nextPlace)
    ensures OrderOk(Without(order, id), buffers - {id}, place - {id}, nextPlace)
  {
    WithoutInOrder(order, place, id);
    InOrderElsewhere(Without(order, id), place, place - {id});
  }

  lemma MembersElsewhere(member: map<Id, (string, string)>, place: map<Id, nat>, place': map<Id, nat>, open: Open)
    requires MembersOk(member, place, open) && PlacesDiffer(place')
    requires forall x :: x in member ==> x in place' && (x in place ==> place'[x] == place[x])
    ensures MembersOk(member, place', open)
  {
  }

  lemma PlacesDifferMore(place: map<Id, nat>, id: Id, n: nat)
    requires PlacesDiffer(place) && forall x :: x in place ==> place[x] < n
    ensures PlacesDiffer(place[id := n])
  {
  }

  function Placed(ix: Index, place: map<Id, nat>): Index {
    ix.(files := ix.files.(place := place))
  }

  /** The index does not read the place of a buffer it does not record. */
  lemma PlacedKeeps(ix: Index, open: Open, holding: map<Id, string>, dirty: Dirty, excuse: set<string>,
                    place: map<Id, nat>)
    requires Mid(ix, open, holding, dirty, excuse) && PlacesDiffer(place)
    requires holding.Keys <= place.Keys && forall x ::
      x in holding ==> x in ix.files.place && place[x] == ix.files.place[x]
    ensures Mid(Placed(ix, place), open, holding, dirty, excuse)
  {
    assert FilesOk(Placed(ix, place).files, open) by { MembersElsewhere(ix.files.member, ix.files.place, place, open); }
  }

  /** The unfiled buffer takes the next place. */
  lemma PlaceStep(ix: Index, buffers: map<Id, Buffer>, open: Open, dirty: Dirty, excuse: set<string>, id: Id,
                  nextPlace: nat)
    requires FilingsBut(ix, buffers, open, dirty, excuse, {}, id) && forall x ::
      x in ix.files.place ==> ix.files.place[x] < nextPlace
    ensures FilingsBut(Placed(ix, ix.files.place[id := nextPlace]), buffers, open, dirty, excuse, {}, id)
  {
    var place := ix.files.place[id := nextPlace];
    PlacesDifferMore(ix.files.place, id, nextPlace);
    assert Mid(Placed(ix, place), open, NamesIn(buffers - {id}), dirty, excuse) by {
      PlacedKeeps(ix, open, NamesIn(buffers - {id}), dirty, excuse, place);
    }
  }

  /** The unfiled buffer is gone. */
  lemma UnplaceStep(ix: Index, buffers: map<Id, Buffer>, open: Open, dirty: Dirty, excuse: set<string>, id: Id)
    requires FilingsBut(ix, buffers, open, dirty, excuse, {}, id)
    ensures Filings(Placed(ix, ix.files.place - {id}), buffers - {id}, open, dirty, excuse, {})
  {
    var place := ix.files.place - {id};
    assert PlacesDiffer(place);
    assert Mid(Placed(ix, place), open, NamesIn(buffers - {id}), dirty, excuse) by {
      PlacedKeeps(ix, open, NamesIn(buffers - {id}), dirty, excuse, place);
    }
  }
}

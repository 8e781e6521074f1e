/** The names a settled index leaves are those the whole session is given at once:
    the registry's order, filtered to one path, is that path's holders. */
module SessionAgreement {
  import opened Options
  import opened NameText
  import opened BufferNames
  import opened HolderNaming
  import opened SessionNames
  import opened NameIndex
  import opened IndexSteps
  import opened IndexMarks
  import opened IndexFiling
  import opened IndexCounts
  import opened Settling
  import opened SettlePlan
  import opened SettleRun
  import opened RegistrySteps

  // ----- the session as requests -----

  /** The buffers named by a path, in the registry's order. */
  function DerivedIds(order: seq<Id>, buffers: map<Id, Buffer>): (ids: seq<Id>)
    ensures forall id :: id in ids <==> id in order && id in buffers && buffers[id].Origin().Some?
  {
    if order == [] then []
    else
      var n := |order| - 1;
      var rest := DerivedIds(order[..n], buffers);
      assert order == order[..n] + [order[n]];
      if order[n] in buffers && buffers[order[n]].Origin().Some? then rest + [order[n]] else rest
  }

  function SpelledNames(p: Path): (names: Spelled) {
    NamesSpell(p);
    Names(p)
  }

  /** The session to name: each buffer named by a path, with the name it held. */
  function Requests(ids: seq<Id>, buffers: map<Id, Buffer>, before: map<Id, string>): (r: seq<Request>)
    requires forall id :: id in ids ==> id in buffers && buffers[id].Origin().Some? && id in before
    ensures |r| == |ids|
  {
    seq(|ids|, i requires 0 <= i < |ids| => Request(SpelledNames(buffers[ids[i]].Origin().value), before[ids[i]]))
  }

  function NamesOf(ids: seq<Id>, buffers: map<Id, Buffer>): (r: seq<string>)
    requires forall id :: id in ids ==> id in buffers
    ensures |r| == |ids|
  {
    seq(|ids|, i requires 0 <= i < |ids| => buffers[ids[i]].name)
  }

  /** The names of the buffers not named by a path. */
  function ExplicitNames(buffers: map<Id, Buffer>): set<string> {
    set id | id in buffers && buffers[id].Origin().None? :: buffers[id].name
  }

  /** Every derived name is the one the whole session, named at once, gives it by
      the names held before. */
  ghost predicate Agrees(order: seq<Id>, buffers: map<Id, Buffer>, before: map<Id, string>) {
    && (forall id :: id in DerivedIds(order, buffers) ==> id in before)
    && var ids := DerivedIds(order, buffers);
       Derived(Requests(ids, buffers, before), ExplicitNames(buffers), NamesOf(ids, buffers))
  }

  // ----- the registry's own records -----

  ghost predicate InOrder(order: seq<Id>, place: map<Id, nat>) {
    && (forall i :: 0 <= i < |order| ==> order[i] in place)
    && forall i, j :: 0 <= i < j < |order| ==> place[order[i]] < place[order[j]]
  }

  /** Each buffer is in the order, at a place of its own below the next. */
  ghost predicate OrderOk(order: seq<Id>, buffers: map<Id, Buffer>, place: map<Id, nat>, nextPlace: nat) {
    && InOrder(order, place) && place.Keys == buffers.Keys
    && (forall id :: id in order <==> id in buffers)
    && forall id :: id in place ==> place[id] < nextPlace
  }

  /** A buffer is filed under the path its name derives from, if it derives from one. */
  ghost predicate FiledRight(buf: Buffer, id: Id, member: map<Id, (string, string)>, open: Open) {
    match buf.Origin()
    case None => id !in member
    case Some(p) => id in member && member[id].1 in open && open[member[id].1].names == Names(p)
  }

  ghost predicate AllFiled(buffers: map<Id, Buffer>, member: map<Id, (string, string)>, open: Open) {
    forall id :: id in buffers ==> FiledRight(buffers[id], id, member, open)
  }

  // ----- the order of a path's holders -----

  lemma {:induction false} DerivedIdsInOrder(order: seq<Id>, buffers: map<Id, Buffer>, place: map<Id, nat>)
    requires InOrder(order, place)
    ensures InOrder(DerivedIds(order, buffers), place)
  {
    if order != [] {
      var n := |order| - 1;
      DerivedIdsInOrder(order[..n], buffers, place);
      var rest, ids := DerivedIds(order[..n], buffers), DerivedIds(order, buffers);
      forall i, j | 0 <= i < j < |ids| ensures place[ids[i]] < place[ids[j]] {
        if j == |rest| {
          assert rest[i] in order[..n];
        }
      }
    }
  }

  /** Two orders of the same buffers by place are one. */
  lemma {:induction false} OneOrder(a: seq<Id>, b: seq<Id>, place: map<Id, nat>)
    requires InOrder(a, place) && InOrder(b, place) && forall id :: id in a <==> id in b
    ensures a == b
  {
    if b != [] {
      assert b[0] in b;
    }
    if a != [] {
      assert a[0] in b && b[0] in a;
      assert a[0] == b[0];
      forall id | id in a[1..] ensures id in b[1..] {
        assert id in a && id != a[0];
      }
      forall id | id in b[1..] ensures id in a[1..] {
        assert id in b && id != b[0];
      }
      OneOrder(a[1..], b[1..], place);
      assert a == [a[0]] + a[1..] && b == [b[0]] + b[1..];
    }
  }

  function HolderIds(h: seq<Holder>): (r: seq<Id>)
    ensures |r| == |h|
  {
    seq(|h|, t requires 0 <= t < |h| => h[t].1)
  }

  lemma HoldersInOrder(member: map<Id, (string, string)>, place: map<Id, nat>, open: Open, w: string)
    requires MembersOk(member, place, open) && w in open
    ensures InOrder(HolderIds(open[w].holders), place)
    ensures forall id :: id in HolderIds(open[w].holders) <==> id in member && member[id].1 == w
  {
    var h := open[w].holders;
    var ids := HolderIds(h);
    forall t | 0 <= t < |h| ensures ids[t] in place && place[ids[t]] == h[t].0 && ids[t] in member
      && member[ids[t]].1 == w {
      assert h[t] in h;
    }
    forall id | id in member && member[id].1 == w ensures id in ids {
      var t :| 0 <= t < |h| && h[t] == (place[id], id);
      assert ids[t] == id;
    }
  }

  lemma RequestFiled(id: Id, buf: Buffer, member: map<Id, (string, string)>, open: Open, nextPath: nat)
    requires FiledRight(buf, id, member, open) && EntriesOk(open, nextPath) && buf.Origin().Some?
    ensures id in member && Last(Names(buf.Origin().value)) == member[id].1
  {
  }

  lemma RequestsFiled(ids: seq<Id>, buffers: map<Id, Buffer>, before: map<Id, string>,
                      member: map<Id, (string, string)>, open: Open, nextPath: nat)
    requires forall id :: id in ids ==> id in buffers && buffers[id].Origin().Some? && id in before
    requires AllFiled(buffers, member, open) && EntriesOk(open, nextPath)
    ensures forall i :: 0 <= i < |ids| ==>
      ids[i] in member && Last(Requests(ids, buffers, before)[i].names) == member[ids[i]].1
  {
    forall i | 0 <= i < |ids| ensures ids[i] in member
      && Last(Requests(ids, buffers, before)[i].names) == member[ids[i]].1 {
      RequestFiled(ids[i], buffers[ids[i]], member, open, nextPath);
    }
  }

  lemma AtInOrder(ids: seq<Id>, m: seq<nat>, place: map<Id, nat>)
    requires InOrder(ids, place) && (forall t :: 0 <= t < |m| ==> m[t] < |ids|) && forall s, t ::
      0 <= s < t < |m| ==> m[s] < m[t]
    ensures InOrder(Pick(ids, m), place)
  {
  }

  lemma AtMembers(ids: seq<Id>, reqs: seq<Request>, w: string, member: map<Id, (string, string)>)
    requires |reqs| == |ids| && forall i ::
      0 <= i < |ids| ==> ids[i] in member && Last(reqs[i].names) == member[ids[i]].1
    ensures forall id :: id in Pick(ids, Members(reqs, w)) <==> id in ids && id in member && member[id].1 == w
  {
    var m := Members(reqs, w);
    var a := Pick(ids, m);
    forall id | id in ids && id in member && member[id].1 == w ensures id in a {
      var i :| 0 <= i < |ids| && ids[i] == id;
      var t :| 0 <= t < |m| && m[t] == i;
      assert a[t] == id;
    }
  }

  lemma AllMembersListed(order: seq<Id>, buffers: map<Id, Buffer>, member: map<Id, (string, string)>, open: Open)
    requires AllFiled(buffers, member, open) && member.Keys <= buffers.Keys && forall id ::
      id in order <==> id in buffers
    ensures forall id :: id in DerivedIds(order, buffers) <==> id in member
  {
    forall id | id in buffers ensures id in DerivedIds(order, buffers) <==> id in member {
      assert FiledRight(buffers[id], id, member, open);
    }
  }

  /** A path's requests, in the registry's order, are its holders. */
  lemma MembersAreHolders(order: seq<Id>, buffers: map<Id, Buffer>, before: map<Id, string>,
                          member: map<Id, (string, string)>,
                          place: map<Id, nat>, open: Open, nextPath: nat, w: string)
    requires InOrder(order, place) && (forall id :: id in order <==> id in buffers)
      && member.Keys <= buffers.Keys <= before.Keys
    requires AllFiled(buffers, member, open) && MembersOk(member, place, open) && EntriesOk(open, nextPath) && w in open
    ensures var ids := DerivedIds(order, buffers);
      Pick(ids, Members(Requests(ids, buffers, before), w)) == HolderIds(open[w].holders)
  {
    var ids := DerivedIds(order, buffers);
    var reqs := Requests(ids, buffers, before);
    var a, b := Pick(ids, Members(reqs, w)), HolderIds(open[w].holders);
    assert InOrder(a, place) by {
      DerivedIdsInOrder(order, buffers, place);
      AtInOrder(ids, Members(reqs, w), place);
    }
    assert forall id :: id in a <==> id in ids && id in member && member[id].1 == w by {
      RequestsFiled(ids, buffers, before, member, open, nextPath);
      AtMembers(ids, reqs, w, member);
    }
    assert forall id :: id in ids <==> id in member by { AllMembersListed(order, buffers, member, open); }
    assert InOrder(b, place) && forall id :: id in b <==> id in member && member[id].1 == w by {
      HoldersInOrder(member, place, open, w);
    }
    OneOrder(a, b, place);
  }

  // ----- agreement -----

  lemma HasHolder(member: map<Id, (string, string)>, place: map<Id, nat>, open: Open, w: string) returns (id: Id)
    requires MembersOk(member, place, open) && w in open
    ensures id in member && member[id].1 == w
  {
    assert open[w].holders[0] in open[w].holders;
    id := open[w].holders[0].1;
  }

  /** The paths of the requests are the paths of the index. */
  lemma PathsAreOpen(ids: seq<Id>, buffers: map<Id, Buffer>, before: map<Id, string>, member: map<Id, (string, string)>,
                     place: map<Id, nat>, open: Open)
    requires forall id :: id in ids ==> id in buffers && buffers[id].Origin().Some? && id in before
    requires (forall id :: id in ids <==> id in member) && AllFiled(buffers, member, open)
      && MembersOk(member, place, open)
    ensures Paths(Requests(ids, buffers, before)) == OpenSet(open)
  {
    var reqs := Requests(ids, buffers, before);
    forall a | a in Paths(reqs) ensures a in OpenSet(open) {
      var i :| 0 <= i < |reqs| && reqs[i].names == a;
      assert FiledRight(buffers[ids[i]], ids[i], member, open);
    }
    forall a | a in OpenSet(open) ensures a in Paths(reqs) {
      var w :| w in open && open[w].names == a;
      var id := HasHolder(member, place, open, w);
      var i :| 0 <= i < |ids| && ids[i] == id;
      assert FiledRight(buffers[id], id, member, open);
      assert reqs[i].names == a;
    }
  }

  lemma TakenAreBases(plan: Plan, open: Open, res: set<string>)
    requires PlanFor(plan, open, res)
    ensures plan.Taken() == res + Bases(OpenSet(open), res)
  {
    forall b | b in Bases(OpenSet(open), res) ensures b in plan.Taken() {
      var a :| a in OpenSet(open) && a != [] && Base(OpenSet(open), res, a) == b;
      var w :| w in open && open[w].names == a;
      assert plan.base[w] == b;
    }
    forall b | b in plan.Taken() && b !in res ensures b in Bases(OpenSet(open), res) {
      var w :| w in plan.base && plan.base[w] == b;
      assert open[w].names in OpenSet(open);
    }
  }

  lemma ExplicitAre(reserved: map<string, nat>, buffers: map<Id, Buffer>, holding: map<Id, string>,
                    member: map<Id, (string, string)>, open: Open)
    requires Counts(reserved, Explicit(holding, member)) && BuffersHold(buffers, holding)
      && holding.Keys == buffers.Keys
    requires AllFiled(buffers, member, open)
    ensures ExplicitNames(buffers) == reserved.Keys
  {
    forall n ensures n in ExplicitNames(buffers) <==> n in reserved {
      CountsKeys(reserved, Explicit(holding, member), n);
      if n in reserved {
        var id :| id in Explicit(holding, member) && Explicit(holding, member)[id] == n;
        assert FiledRight(buffers[id], id, member, open);
      }
      if n in ExplicitNames(buffers) {
        var id :| id in buffers && buffers[id].Origin().None? && buffers[id].name == n;
        assert FiledRight(buffers[id], id, member, open);
        assert Explicit(holding, member)[id] == n;
      }
    }
  }

  lemma PickedHeld(ids: seq<Id>, reqs: seq<Request>, before: map<Id, string>, m: seq<nat>, h: seq<Holder>)
    requires |reqs| == |ids| && (forall i :: 0 <= i < |ids| ==> ids[i] in before && reqs[i].holds == before[ids[i]])
    requires (forall t :: 0 <= t < |m| ==> m[t] < |ids|) && Pick(ids, m) == HolderIds(h)
    ensures forall t :: 0 <= t < |h| ==> h[t].1 in before
    ensures SessionNames.Held(reqs, m) == NamesAt(before, h)
  {
    assert |Pick(ids, m)| == |h|;
    forall t | 0 <= t < |m| ensures ids[m[t]] == h[t].1 {
      assert Pick(ids, m)[t] == HolderIds(h)[t];
    }
  }

  lemma PickedNames(ids: seq<Id>, buffers: map<Id, Buffer>, holding: map<Id, string>, m: seq<nat>, h: seq<Holder>)
    requires (forall id :: id in ids ==> id in buffers && id in holding) && BuffersHold(buffers, holding)
    requires (forall t :: 0 <= t < |m| ==> m[t] < |ids|) && Pick(ids, m) == HolderIds(h)
    ensures forall t :: 0 <= t < |h| ==> h[t].1 in holding
    ensures Pick(NamesOf(ids, buffers), m) == NamesAt(holding, h)
  {
    assert |Pick(ids, m)| == |h|;
    forall t | 0 <= t < |m| ensures ids[m[t]] == h[t].1 {
      assert Pick(ids, m)[t] == HolderIds(h)[t];
    }
  }

  /** What the whole session gives a path's requests. */
  lemma PathNamesAre(reqs: seq<Request>, res: set<string>, i: nat, w: string, open: Open, plan: Plan)
    requires plan.Valid() && PlanFor(plan, open, res) && w in open
    requires i < |reqs| && reqs[i].names == open[w].names && Last(open[w].names) == w && Paths(reqs) == OpenSet(open)
    requires SessionNames.Held(reqs, Members(reqs, w)) == NamesAt(plan.before, plan.holders[w])
    ensures PathNames(reqs, res, i) == plan.Target(w, plan.Taken())
  {
    TakenAreBases(plan, open, res);
    assert plan.base[w] == BaseOf(open, res, w);
  }

  lemma FinalNames(plan: Plan, holding: map<Id, string>, w: string)
    requires plan.Valid() && w in plan.base && plan.Final(holding, w)
    ensures forall t :: 0 <= t < |plan.holders[w]| ==> plan.holders[w][t].1 in holding
    ensures NamesAt(holding, plan.holders[w]) == plan.Target(w, plan.Taken())
  {
  }

  /** One path's names are the whole session's for it. */
  lemma PathAgrees(ids: seq<Id>, buffers: map<Id, Buffer>, holding: map<Id, string>, plan: Plan, open: Open,
                   res: set<string>, i: nat, w: string, reqs: seq<Request>, m: seq<nat>)
    requires forall id ::
      id in ids ==> id in buffers && buffers[id].Origin().Some? && id in plan.before && id in holding
    requires reqs == Requests(ids, buffers, plan.before) && m == Members(reqs, w)
    requires plan.Valid() && PlanFor(plan, open, res) && w in open && plan.Final(holding, w)
    requires i < |ids| && Names(buffers[ids[i]].Origin().value) == open[w].names && Last(open[w].names) == w
    requires Paths(reqs) == OpenSet(open) && BuffersHold(buffers, holding) && Pick(ids, m) == HolderIds(open[w].holders)
    ensures Last(reqs[i].names) == w && Pick(NamesOf(ids, buffers), m) == PathNames(reqs, res, i)
  {
    var h := plan.holders[w];
    assert h == open[w].holders;
    assert PathNames(reqs, res, i) == plan.Target(w, plan.Taken()) by {
      PickedHeld(ids, reqs, plan.before, m, h);
      PathNamesAre(reqs, res, i, w, open, plan);
    }
    assert (forall t :: 0 <= t < |h| ==> h[t].1 in holding) && NamesAt(holding, h) == plan.Target(w, plan.Taken()) by {
      FinalNames(plan, holding, w);
    }
    assert Pick(NamesOf(ids, buffers), m) == NamesAt(holding, h) by { PickedNames(ids, buffers, holding, m, h); }
  }

  ghost predicate RequestOk(ids: seq<Id>, buffers: map<Id, Buffer>, reqs: seq<Request>, res: set<string>, i: nat)
    requires (forall id :: id in ids ==> id in buffers) && |reqs| == |ids| && i < |reqs|
  {
    Pick(NamesOf(ids, buffers), Members(reqs, Last(reqs[i].names))) == PathNames(reqs, res, i)
  }

  lemma AgreesFrom(order: seq<Id>, buffers: map<Id, Buffer>, before: map<Id, string>)
    requires buffers.Keys == before.Keys
    requires var ids := DerivedIds(order, buffers);
      var reqs := Requests(ids, buffers, before);
      forall i :: 0 <= i < |reqs| ==> RequestOk(ids, buffers, reqs, ExplicitNames(buffers), i)
    ensures Agrees(order, buffers, before)
  {
    var ids := DerivedIds(order, buffers);
    var reqs := Requests(ids, buffers, before);
    forall i | 0 <= i < |reqs|
      ensures Pick(NamesOf(ids, buffers), Members(reqs, Last(reqs[i].names))) == PathNames(reqs, ExplicitNames(buffers),
          i)
    {
      assert RequestOk(ids, buffers, reqs, ExplicitNames(buffers), i);
    }
  }

  lemma AllAgree(f: Files, order: seq<Id>, buffers: map<Id, Buffer>, open: Open, holding: map<Id, string>, plan: Plan,
                 res: set<string>)
    requires FilesOk(f, open) && BuffersHold(buffers, holding)
      && f.member.Keys <= holding.Keys == buffers.Keys == plan.before.Keys
    requires InOrder(order, f.place) && (forall id :: id in order <==> id in buffers)
      && AllFiled(buffers, f.member, open)
    requires plan.Valid() && PlanFor(plan, open, res) && AllFinal(plan, holding)
    requires Paths(Requests(DerivedIds(order, buffers), buffers, plan.before)) == OpenSet(open)
    ensures var ids := DerivedIds(order, buffers);
      var reqs := Requests(ids, buffers, plan.before);
      forall i :: 0 <= i < |reqs| ==> RequestOk(ids, buffers, reqs, res, i)
  {
    var ids := DerivedIds(order, buffers);
    var reqs := Requests(ids, buffers, plan.before);
    forall i | 0 <= i < |reqs| ensures RequestOk(ids, buffers, reqs, res, i) {
      var w := RequestAgrees(f, order, buffers, plan.before, open, i);
      PathAgrees(ids, buffers, holding, plan, open, res, i, w, reqs, Members(reqs, w));
    }
  }

  /** A settled index names the session as naming it all at once does. */
  lemma SettledAgrees(ix: Index, order: seq<Id>, buffers: map<Id, Buffer>, nextPlace: nat, open: Open,
                      holding: map<Id, string>, plan: Plan)
    requires IndexOk(ix, open, holding) && BuffersHold(buffers, holding)
      && holding.Keys == buffers.Keys == plan.before.Keys
    requires OrderOk(order, buffers, ix.files.place, nextPlace) && AllFiled(buffers, ix.files.member, open)
    requires plan.Valid() && PlanFor(plan, open, ix.reserved.Keys) && AllFinal(plan, holding)
    ensures Agrees(order, buffers, plan.before)
  {
    var ids, f, res := DerivedIds(order, buffers), ix.files, ix.reserved.Keys;
    var reqs := Requests(ids, buffers, plan.before);
    assert ExplicitNames(buffers) == res by { ExplicitAre(ix.reserved, buffers, holding, f.member, open); }
    assert Paths(reqs) == OpenSet(open) by {
      AllMembersListed(order, buffers, f.member, open);
      PathsAreOpen(ids, buffers, plan.before, f.member, f.place, open);
    }
    AllAgree(f, order, buffers, open, holding, plan, res);
    AgreesFrom(order, buffers, plan.before);
  }

  lemma FiledUnder(f: Files, buffers: map<Id, Buffer>, open: Open, id: Id) returns (w: string)
    requires EntriesOk(open, f.nextPath) && id in buffers && FiledRight(buffers[id], id, f.member, open)
      && buffers[id].Origin().Some?
    ensures id in f.member && w == f.member[id].1 && w in open && open[w].names == Names(buffers[id].Origin().value)
      && Last(open[w].names) == w
  {
    w := f.member[id].1;
  }

  lemma RequestAgrees(f: Files, order: seq<Id>, buffers: map<Id, Buffer>, before: map<Id, string>, open: Open, i: nat)
    returns (w: string)
    requires FilesOk(f, open) && f.member.Keys <= buffers.Keys == before.Keys
    requires InOrder(order, f.place) && (forall id :: id in order <==> id in buffers)
      && AllFiled(buffers, f.member, open)
    requires i < |DerivedIds(order, buffers)|
    ensures var ids := DerivedIds(order, buffers);
      && w in open && open[w].names == Names(buffers[ids[i]].Origin().value) && Last(open[w].names) == w
      && Pick(ids, Members(Requests(ids, buffers, before), w)) == HolderIds(open[w].holders)
  {
    var id := DerivedIds(order, buffers)[i];
    w := FiledUnder(f, buffers, open, id);
    MembersAreHolders(order, buffers, before, f.member, f.place, open, f.nextPath, w);
  }

  /** No two buffers named by a path have one name, and none an explicit name. */
  lemma AgreeingDistinct(order: seq<Id>, buffers: map<Id, Buffer>, before: map<Id, string>, a: Id, b: Id)
    requires Agrees(order, buffers, before) && a in order && b in order && a in buffers && b in buffers && a != b
    requires buffers[a].Origin().Some?
    ensures buffers[a].name != buffers[b].name
  {
    var ids := DerivedIds(order, buffers);
    if b in ids {
      DerivedApart(ids, Requests(ids, buffers, before), ExplicitNames(buffers), buffers, a, b);
    } else {
      DerivedNotReserved(ids, Requests(ids, buffers, before), ExplicitNames(buffers), buffers, a);
    }
  }

  /** In an agreeing session a buffer shows its path's plain name exactly when it is the
      one to, and one that holds a `<N>` it may stay with has it still. */
  lemma AgreeingKept(order: seq<Id>, buffers: map<Id, Buffer>, before: map<Id, string>, i: nat)
    requires Agrees(order, buffers, before) && i < |DerivedIds(order, buffers)|
    ensures var ids := DerivedIds(order, buffers);
      var reqs := Requests(ids, buffers, before);
      var base := Base(Paths(reqs), ExplicitNames(buffers), reqs[i].names);
      && (PlainHere(reqs, ExplicitNames(buffers), base, i) <==> buffers[ids[i]].name == base)
      && (StaysHere(reqs, ExplicitNames(buffers), base, i) ==> buffers[ids[i]].name == before[ids[i]])
  {
    var ids := DerivedIds(order, buffers);
    DerivedKept(Requests(ids, buffers, before), ExplicitNames(buffers), NamesOf(ids, buffers), i);
  }

  lemma DerivedApart(ids: seq<Id>, reqs: seq<Request>, res: set<string>, buffers: map<Id, Buffer>, a: Id, b: Id)
    requires (forall id :: id in ids ==> id in buffers) && |reqs| == |ids| && Derived(reqs, res, NamesOf(ids, buffers))
    requires a in ids && b in ids && a != b
    ensures buffers[a].name != buffers[b].name
  {
    var i :| 0 <= i < |ids| && ids[i] == a;
    var j :| 0 <= j < |ids| && ids[j] == b;
    DerivedDistinct(reqs, res, NamesOf(ids, buffers), if i < j then i else j, if i < j then j else i);
  }

  lemma DerivedNotReserved(ids: seq<Id>, reqs: seq<Request>, res: set<string>, buffers: map<Id, Buffer>, a: Id)
    requires (forall id :: id in ids ==> id in buffers) && |reqs| == |ids| && Derived(reqs, res, NamesOf(ids, buffers))
      && a in ids
    ensures buffers[a].name !in res
  {
    var i :| 0 <= i < |ids| && ids[i] == a;
    DerivedOwn(reqs, res, NamesOf(ids, buffers), i);
  }
}

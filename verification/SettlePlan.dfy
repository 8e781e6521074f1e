/** What naming one path of the index reads and writes (`name_path` in
    src/buffer_registry.rs), and the plan a settling index carries out. */
module SettlePlan {
  import opened Options
  import opened NameText
  import opened BufferNames
  import opened HolderNaming
  import opened SessionNames
  import opened NameIndex
  import opened IndexSteps
  import opened IndexMarks
  import opened IndexMembers
  import opened IndexFiling
  import opened IndexCounts
  import opened Settling

  // ----- the counts tell what others hold -----

  function Occurrences(s: seq<string>, n: string): nat {
    if s == [] then 0 else (if s[0] == n then 1 else 0) + Occurrences(s[1..], n)
  }

  ghost predicate DistinctIds(h: seq<Holder>) {
    forall s, t :: 0 <= s < t < |h| ==> h[s].1 != h[t].1
  }

  ghost function Own(holding: map<Id, string>, h: seq<Holder>, n: string): set<Id> {
    set id | id in IdsOf(h) && id in holding && holding[id] == n
  }

  lemma {:induction false} OccurrencesAre(holding: map<Id, string>, h: seq<Holder>, n: string)
    requires DistinctIds(h) && forall t :: 0 <= t < |h| ==> h[t].1 in holding
    ensures Occurrences(NamesAt(holding, h), n) == |Own(holding, h, n)|
  {
    if h == [] {
      assert Own(holding, h, n) == {};
    } else {
      OccurrencesAre(holding, h[1..], n);
      assert NamesAt(holding, h)[1..] == NamesAt(holding, h[1..]);
      OwnCons(holding, h, n);
    }
  }

  lemma IdsCons(h: seq<Holder>)
    requires h != []
    ensures IdsOf(h) == IdsOf(h[1..]) + {h[0].1}
  {
    assert forall t :: 0 < t < |h| ==> h[t] == h[1..][t - 1];
    assert h[0].1 in IdsOf(h);
    forall t | 0 <= t < |h[1..]| ensures h[1..][t].1 in IdsOf(h) {
      assert h[1..][t] == h[t + 1];
    }
  }

  lemma OwnCons(holding: map<Id, string>, h: seq<Holder>, n: string)
    requires DistinctIds(h) && h != [] && forall t :: 0 <= t < |h| ==> h[t].1 in holding
    ensures |Own(holding, h, n)| == |Own(holding, h[1..], n)| + (if holding[h[0].1] == n then 1 else 0)
  {
    IdsCons(h);
    var own, more := Own(holding, h[1..], n), if holding[h[0].1] == n then {h[0].1} else {};
    assert Own(holding, h, n) == own + more;
    assert own !! more by { HeadApart(h); }
  }

  lemma HeadApart(h: seq<Holder>)
    requires DistinctIds(h) && h != []
    ensures h[0].1 !in IdsOf(h[1..])
  {
  }

  lemma OthersHas(holding: map<Id, string>, h: seq<Holder>, id: Id)
    requires id in holding && id !in IdsOf(h)
    ensures holding[id] in Others(holding, h)
  {
  }

  /** More buffers hold the name than holders of the path do: another holds it. */
  lemma TakenIsOthers(held: map<string, nat>, holding: map<Id, string>, h: seq<Holder>, n: string)
    requires Counts(held, holding) && DistinctIds(h) && forall t :: 0 <= t < |h| ==> h[t].1 in holding
    ensures n in held && held[n] > Occurrences(NamesAt(holding, h), n) <==> n in Others(holding, h)
  {
    OccurrencesAre(holding, h, n);
    var all, own := Holding(holding, n), Own(holding, h, n);
    assert own <= all;
    var rest := all - own;
    assert |all| == |own| + |rest| by { assert all == own + rest; }
    if id :| id in rest {
      OthersHas(holding, h, id);
    }
    if n in Others(holding, h) {
      var id :| id in holding && id !in IdsOf(h) && holding[id] == n;
      assert id in rest;
    }
  }

  function TakenBy(held: map<string, nat>, now: seq<string>): set<string> {
    set n | n in held && held[n] > Occurrences(now, n)
  }

  lemma TakenByOthers(held: map<string, nat>, holding: map<Id, string>, h: seq<Holder>)
    requires Counts(held, holding) && DistinctIds(h) && forall t :: 0 <= t < |h| ==> h[t].1 in holding
    ensures TakenBy(held, NamesAt(holding, h)) == Others(holding, h)
  {
    forall n ensures n in TakenBy(held, NamesAt(holding, h)) <==> n in Others(holding, h) {
      TakenIsOthers(held, holding, h, n);
    }
  }

  // ----- the depth the counts give -----

  predicate CountedShared(shared: map<string, (nat, nat)>, n: string) {
    n in shared && shared[n].0 > 1
  }

  lemma SharedCounts(group: Group, nextPath: nat, n: string)
    requires GroupOk(group)
    ensures CountedShared(group.shared, n) <==> |With(group.paths, n)| > 1
  {
  }

  /** The counts of a path's own group give the name the whole session does. */
  lemma CountedDepth(f: Files, open: Open, w: string, res: set<string>)
    requires FilesOk(f, open) && w in open
    ensures GroupAt(open, w) in f.groups
    ensures var shared := f.groups[GroupAt(open, w)].shared;
      NameDepth(open[w].names, n => CountedShared(shared, n), n => n in res) == Depth(OpenSet(open), res, open[w].names)
  {
    var group := f.groups[GroupAt(open, w)];
    var names := open[w].names;
    forall k | 0 <= k < |names| ensures CountedShared(group.shared, names[k]) <==> SharedIn(OpenSet(open), names[k]) {
      SharedCounts(group, f.nextPath, names[k]);
      WithInGroup(f.groups, open, w, names[k]);
      SharedIsMany(open, f.nextPath, names[k]);
    }
    NameDepthIs(names, n => CountedShared(group.shared, n), n => n in res, Depth(OpenSet(open), res, names));
  }

  /** File `w` under its `d`-th name. */
  function Refiled(groups: map<string, Group>, g: string, w: string, d: nat): map<string, Group>
    requires g in groups && w in groups[g].paths && d < |groups[g].paths[w].names|
  {
    var group := groups[g];
    var e := group.paths[w];
    if e.depth == Some(d) then groups
    else groups[g := group.(paths := group.paths[w := e.(depth := Some(d))],
                            named := NamedWithout(group.named, e, w)[e.names[d] := w])]
  }

  lemma RefiledSame(f: Files, open: Open, w: string, d: nat)
    requires FilesOk(f, open) && w in open && open[w].depth == Some(d)
    ensures var g, e := GroupAt(open, w), open[w].(depth := Some(d));
      && g in f.groups && w in f.groups[g].paths && f.groups[g].paths[w] == open[w]
      && FilesOk(f.(groups := Refiled(f.groups, g, w, d)), open[w := e]) && SameNamesAndIds(open, open[w := e])
  {
    assert open[w := open[w].(depth := Some(d))] == open;
  }

  lemma RefiledElsewhere(f: Files, open: Open, w: string, d: nat)
    requires FilesOk(f, open) && w in open && d < |open[w].names| && open[w].depth != Some(d)
    requires forall v :: v in open && v != w ==> open[w].names[d] !in open[v].names
    ensures var g, e := GroupAt(open, w), open[w].(depth := Some(d));
      && g in f.groups && w in f.groups[g].paths && f.groups[g].paths[w] == open[w]
      && FilesOk(f.(groups := Refiled(f.groups, g, w, d)), open[w := e]) && SameNamesAndIds(open, open[w := e])
  {
    var g, e := GroupAt(open, w), open[w].(depth := Some(d));
    assert GroupsOk(Refiled(f.groups, g, w, d), open[w := e]) && EntriesOk(open[w := e], f.nextPath)
        && SameNamesAndIds(open, open[w := e]) by {
      Renamed(f.groups, open, f.nextPath, w, d);
    }
    assert Spelt(open[w := e]) by { SpeltAt(open, w, e); }
    assert MembersOk(f.member, f.place, open[w := e]) by { RefiledMembers(f.member, f.place, open, w, e); }
  }

  lemma RefiledOk(f: Files, open: Open, w: string, res: set<string>)
    requires FilesOk(f, open) && w in open
    ensures var g, d := GroupAt(open, w), Depth(OpenSet(open), res, open[w].names);
      && g in f.groups && w in f.groups[g].paths && f.groups[g].paths[w] == open[w]
      && FilesOk(f.(groups := Refiled(f.groups, g, w, d)), open[w := open[w].(depth := Some(d))])
      && SameNamesAndIds(open, open[w := open[w].(depth := Some(d))])
  {
    var d := Depth(OpenSet(open), res, open[w].names);
    if open[w].depth == Some(d) {
      RefiledSame(f, open, w, d);
    } else {
      assert forall v :: v in open && v != w ==> open[w].names[d] !in open[v].names by {
        BaseIsAlone(open, f.nextPath, res, w);
      }
      RefiledElsewhere(f, open, w, d);
    }
  }

  lemma RefiledMembers(member: map<Id, (string, string)>, place: map<Id, nat>, open: Open, w: string, e: GroupPath)
    requires MembersOk(member, place, open) && w in open && e.holders == open[w].holders && e.names == open[w].names
    ensures MembersOk(member, place, open[w := e])
  {
    MembersElsewhere(member, place, open, open[w := e]);
  }

  lemma MembersElsewhere(member: map<Id, (string, string)>, place: map<Id, nat>, open: Open, open': Open)
    requires MembersOk(member, place, open) && open'.Keys == open.Keys
    requires forall v :: v in open ==> open'[v].holders == open[v].holders && open'[v].names == open[v].names
    ensures MembersOk(member, place, open')
  {
  }

  lemma SortedIds(f: Files, open: Open, w: string)
    requires FilesOk(f, open) && w in open
    ensures DistinctIds(open[w].holders)
  {
    var h := open[w].holders;
    forall s, t | 0 <= s < t < |h| ensures h[s].1 != h[t].1 {
      assert h[s] in h && h[t] in h;
    }
  }

  // ----- the plan -----

  ghost function PlanOf(open: Open, res: set<string>, before: map<Id, string>): Plan {
    Plan(map v | v in open :: BaseOf(open, res, v), map v | v in open :: open[v].holders, res, before)
  }

  /** The plan is of these paths, whatever names they are filed under. */
  ghost predicate PlanFor(plan: Plan, open: Open, res: set<string>) {
    && plan.res == res
    && plan.base.Keys == open.Keys == plan.holders.Keys
    && forall v :: v in open ==> plan.base[v] == BaseOf(open, res, v) && plan.holders[v] == open[v].holders
  }

  lemma PlanKept(plan: Plan, open: Open, res: set<string>, w: string, e: GroupPath)
    requires PlanFor(plan, open, res) && w in open
    requires e.names == open[w].names && e.id == open[w].id && e.holders == open[w].holders
    ensures PlanFor(plan, open[w := e], res)
  {
    SameOpenSet(open, open[w := e]);
  }

  lemma OneHolding(f: Files, open: Open, u: string, v: string, s: nat, t: nat)
    requires FilesOk(f, open) && u in open && v in open && s < |open[u].holders| && t < |open[v].holders|
    requires open[u].holders[s].1 == open[v].holders[t].1
    ensures u == v && s == t
  {
    assert open[u].holders[s] in open[u].holders && open[v].holders[t] in open[v].holders;
    SortedIds(f, open, u);
  }

  lemma HoldersApartIn(f: Files, open: Open, plan: Plan, u: string, v: string)
    requires FilesOk(f, open) && u in open && v in open && u in plan.holders && v in plan.holders
    requires plan.holders[u] == open[u].holders && plan.holders[v] == open[v].holders
    ensures plan.Apart(u, v)
  {
    forall s, t | 0 <= s < |plan.holders[u]| && 0 <= t < |plan.holders[v]|
      && plan.holders[u][s].1 == plan.holders[v][t].1
      ensures u == v && s == t
    {
      OneHolding(f, open, u, v, s, t);
    }
  }

  lemma OneBaseEach(open: Open, nextPath: nat, res: set<string>)
    requires EntriesOk(open, nextPath) && Spelt(open)
    ensures forall u, v :: u in open && v in open && BaseOf(open, res, u) == BaseOf(open, res, v) ==> u == v
  {
    SpeltSet(open);
    forall u, v | u in open && v in open && BaseOf(open, res, u) == BaseOf(open, res, v) ensures u == v {
      if u != v {
        BasesDiffer(OpenSet(open), res, open[u].names, open[v].names);
      }
    }
  }

  lemma AllApart(f: Files, open: Open, plan: Plan)
    requires FilesOk(f, open) && plan.holders.Keys == open.Keys && forall v ::
      v in open ==> plan.holders[v] == open[v].holders
    ensures forall u, v {:trigger plan.Apart(u, v)} :: u in open && v in open ==> plan.Apart(u, v)
  {
    forall u, v | u in open && v in open ensures plan.Apart(u, v) {
      HoldersApartIn(f, open, plan, u, v);
    }
  }

  lemma PlanAssembled(plan: Plan, open: Open, res: set<string>)
    requires PlanFor(plan, open, res) && HoldersHold(plan.before, open) && HoldersSorted(open)
    requires forall u, v :: u in open && v in open && BaseOf(open, res, u) == BaseOf(open, res, v) ==> u == v
    requires forall u, v {:trigger plan.Apart(u, v)} :: u in open && v in open ==> plan.Apart(u, v)
    ensures plan.Valid()
  {
  }

  lemma PlanValid(ix: Index, open: Open, holding: map<Id, string>)
    requires IndexOk(ix, open, holding)
    ensures PlanOf(open, ix.reserved.Keys, holding).Valid()
  {
    var plan := PlanOf(open, ix.reserved.Keys, holding);
    assert PlanFor(plan, open, ix.reserved.Keys);
    AllApart(ix.files, open, plan);
    IndexHolds(ix, open, holding);
    OneBaseEach(open, ix.files.nextPath, ix.reserved.Keys);
    PlanAssembled(plan, open, ix.reserved.Keys);
  }

  lemma MovedIsMember(member: map<Id, (string, string)>, place: map<Id, nat>, open: Open, res: set<string>,
                      before: map<Id, string>, id: Id)
    requires HoldersAre(member, place, open) && PlanOf(open, res, before).Moves(id)
    ensures id in member
  {
    var plan := PlanOf(open, res, before);
    var v :| v in plan.base && v in plan.holders && id in IdsOf(plan.holders[v]);
    var t :| 0 <= t < |open[v].holders| && open[v].holders[t].1 == id;
    assert open[v].holders[t] in open[v].holders;
  }

  lemma MemberIsMoved(member: map<Id, (string, string)>, place: map<Id, nat>, open: Open, res: set<string>,
                      before: map<Id, string>, id: Id)
    requires MembersHold(member, place, open) && id in member
    ensures PlanOf(open, res, before).Moves(id)
  {
    var plan, v := PlanOf(open, res, before), member[id].1;
    var t :| 0 <= t < |open[v].holders| && open[v].holders[t] == (place[id], id);
    assert v in plan.base && v in plan.holders && plan.holders[v] == open[v].holders;
  }

  lemma MovesIsMember(ix: Index, open: Open, holding: map<Id, string>, id: Id)
    requires IndexOk(ix, open, holding)
    ensures PlanOf(open, ix.reserved.Keys, holding).Moves(id) <==> id in ix.files.member
  {
    if PlanOf(open, ix.reserved.Keys, holding).Moves(id) {
      MovedIsMember(ix.files.member, ix.files.place, open, ix.reserved.Keys, holding, id);
    }
    if id in ix.files.member {
      MemberIsMoved(ix.files.member, ix.files.place, open, ix.reserved.Keys, holding, id);
    }
  }

  lemma PlanFits(ix: Index, open: Open, holding: map<Id, string>)
    requires IndexOk(ix, open, holding)
    ensures PlanOf(open, ix.reserved.Keys, holding).Fits(holding)
  {
    var plan := PlanOf(open, ix.reserved.Keys, holding);
    var free := Explicit(holding, ix.files.member);
    forall id | id in holding && !plan.Moves(id) ensures holding[id] in plan.res {
      MovesIsMember(ix, open, holding, id);
      assert id in free && free[id] == holding[id];
      CountsKeys(ix.reserved, free, holding[id]);
    }
    forall n | n in plan.res ensures exists id :: id in holding && !plan.Moves(id) && holding[id] == n {
      CountsKeys(ix.reserved, free, n);
      var id :| id in free && free[id] == n;
      MovesIsMember(ix, open, holding, id);
    }
  }
}
